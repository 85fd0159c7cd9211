/**
 * The package mapper (`expr_to_pkg`): the parsed map is turned into a `Package` record, one
 * map entry at a time, through a fixed table of twelve key names. Scalar keys take the first
 * value of their list, list keys take the whole list, unknown keys only raise a warning.
 */
module PackageMapper {
  import opened Wrappers
  import opened Strings

  /** The package description; every field is absent until a key of the recipe sets it. */
  datatype Package = Package(
    name: Option<string>,
    version: Option<string>,
    release: Option<string>,
    source: Option<seq<string>>,
    license: Option<seq<string>>,
    component: Option<string>,
    summary: Option<string>,
    description: Option<string>,
    builddeps: Option<seq<string>>,
    setup: Option<seq<string>>,
    build: Option<seq<string>>,
    install: Option<seq<string>>)

  /** The twelve fields of a package, one per recognised key. */
  datatype Field =
    Name | Version | Release | Source | License | Component | Summary | Description | Builddeps | Setup | Build | Install

  /** The one way mapping fails: a scalar key whose list is empty (`fst` unwraps `None`). */
  datatype MapError = MissingValue

  /** What a field holds: one string, or a list of them. */
  datatype Value = Single(text: string) | Items(items: seq<string>)

  /** The fields that hold one string; the other six hold a list. */
  predicate IsScalar(f: Field) {
    f in {Name, Version, Release, Component, Summary, Description}
  }

  /** The recipe key that sets each field. */
  function KeyName(f: Field): string {
    match f
    case Name => "name"
    case Version => "version"
    case Release => "release"
    case Source => "source"
    case License => "license"
    case Component => "component"
    case Summary => "summary"
    case Description => "description"
    case Builddeps => "builddeps"
    case Setup => "setup"
    case Build => "build"
    case Install => "install"
  }

  /** The dispatch table of `expr_to_pkg`: the field a key sets, if the key is one of the twelve. */
  function FieldOf(key: string): (r: Option<Field>)
    ensures r.Some? ==> KeyName(r.value) == key
    ensures r.None? ==> forall f :: KeyName(f) != key
  {
    if key == "name" then Some(Name)
    else if key == "version" then Some(Version)
    else if key == "release" then Some(Release)
    else if key == "source" then Some(Source)
    else if key == "license" then Some(License)
    else if key == "component" then Some(Component)
    else if key == "summary" then Some(Summary)
    else if key == "description" then Some(Description)
    else if key == "builddeps" then Some(Builddeps)
    else if key == "setup" then Some(Setup)
    else if key == "build" then Some(Build)
    else if key == "install" then Some(Install)
    else None
  }

  /** The value a field holds in a package, seen uniformly. */
  function Get(p: Package, f: Field): Option<Value> {
    match f
    case Name => SingleOf(p.name)
    case Version => SingleOf(p.version)
    case Release => SingleOf(p.release)
    case Source => ItemsOf(p.source)
    case License => ItemsOf(p.license)
    case Component => SingleOf(p.component)
    case Summary => SingleOf(p.summary)
    case Description => SingleOf(p.description)
    case Builddeps => ItemsOf(p.builddeps)
    case Setup => ItemsOf(p.setup)
    case Build => ItemsOf(p.build)
    case Install => ItemsOf(p.install)
  }

  function SingleOf(o: Option<string>): Option<Value> {
    match o
    case None => None
    case Some(s) => Some(Single(s))
  }

  function ItemsOf(o: Option<seq<string>>): Option<Value> {
    match o
    case None => None
    case Some(s) => Some(Items(s))
  }

  /** A package is determined by what its twelve fields hold. */
  lemma GetDetermines(p: Package, q: Package)
    requires forall f :: Get(p, f) == Get(q, f)
    ensures p == q
  {
    assert Get(p, Name) == Get(q, Name) && Get(p, Version) == Get(q, Version);
    assert Get(p, Release) == Get(q, Release) && Get(p, Source) == Get(q, Source);
    assert Get(p, License) == Get(q, License) && Get(p, Component) == Get(q, Component);
    assert Get(p, Summary) == Get(q, Summary) && Get(p, Description) == Get(q, Description);
    assert Get(p, Builddeps) == Get(q, Builddeps) && Get(p, Setup) == Get(q, Setup);
    assert Get(p, Build) == Get(q, Build) && Get(p, Install) == Get(q, Install);
  }

  /** `Package::default()`: no field set. */
  function Default(): (p: Package)
    ensures forall f :: Get(p, f) == None
  {
    Package(None, None, None, None, None, None, None, None, None, None, None, None)
  }

  /** `VecTools::fst`: the first element of a list, `None` exactly when the list is empty (where the source panics). */
  function Fst<T>(v: seq<T>): (r: Option<T>)
    ensures r.None? <==> v == []
    ensures r.Some? ==> v == [r.value] + v[1..]
  {
    if v == [] then None else Some(v[0])
  }

  /** What a key's list makes of a field: its first value for a scalar field, all of it for a list field. */
  function ValueOf(f: Field, values: seq<string>): Option<Value> {
    if IsScalar(f) then (if values == [] then None else Some(Single(values[0])))
    else Some(Items(values))
  }

  /** A scalar field set from the first value; failing when there is none. */
  function SetScalar(first: Option<string>, updated: Package): Result<Package, MapError> {
    if first.None? then Err(MissingValue) else Ok(updated)
  }

  /**
   * One arm of the `match` in `expr_to_pkg`: the entry `lexpr: rexpr` applied to the package.
   * A recognised key sets its own field and no other; an unknown key leaves the package as it was.
   */
  function ApplyEntry(pkg: Package, lexpr: string, rexpr: seq<string>): (r: Result<Package, MapError>)
    ensures FieldOf(Trim(lexpr)).None? ==> r == Ok(pkg)
    ensures FieldOf(Trim(lexpr)).Some? ==>
      var f := FieldOf(Trim(lexpr)).value;
      && (r.Err? <==> ValueOf(f, rexpr).None?)
      && (r.Ok? ==> Get(r.value, f) == ValueOf(f, rexpr))
      && (r.Ok? ==> forall g :: g != f ==> Get(r.value, g) == Get(pkg, g))
  {
    var first := Fst(rexpr);
    match FieldOf(Trim(lexpr))
    case None => Ok(pkg)
    case Some(f) =>
      match f
      case Name => SetScalar(first, pkg.(name := first))
      case Version => SetScalar(first, pkg.(version := first))
      case Release => SetScalar(first, pkg.(release := first))
      case Source => Ok(pkg.(source := Some(rexpr)))
      case License => Ok(pkg.(license := Some(rexpr)))
      case Component => SetScalar(first, pkg.(component := first))
      case Summary => SetScalar(first, pkg.(summary := first))
      case Description => SetScalar(first, pkg.(description := first))
      case Builddeps => Ok(pkg.(builddeps := Some(rexpr)))
      case Setup => Ok(pkg.(setup := Some(rexpr)))
      case Build => Ok(pkg.(build := Some(rexpr)))
      case Install => Ok(pkg.(install := Some(rexpr)))
  }

  /** The entry `key: values` is one the source panics on: a scalar key with an empty list. */
  predicate MissingScalar(key: string, values: seq<string>) {
    FieldOf(Trim(key)).Some? && IsScalar(FieldOf(Trim(key)).value) && values == []
  }

  /** The map's keys that are not in the table, as the warning prints them (trimmed). */
  function UnknownKeys(parseMap: map<string, seq<string>>): set<string> {
    set k | k in parseMap && FieldOf(Trim(k)).None? :: Trim(k)
  }

  /** Every key of the map is trimmed, as the parser leaves them. */
  predicate KeysTrimmed(parseMap: map<string, seq<string>>) {
    forall k :: k in parseMap ==> Trim(k) == k
  }

  /** Each field's key names that field: the table read backwards. */
  lemma FieldOfKeyName(f: Field)
    ensures FieldOf(KeyName(f)) == Some(f)
  {
    match f
    case Name =>
    case Version =>
    case Release =>
    case Source =>
    case License =>
    case Component =>
    case Summary =>
    case Description =>
    case Builddeps =>
    case Setup =>
    case Build =>
    case Install =>
  }

  /**
   * Loop bookkeeping of `ExprToPkg` for the fields, once the keys in `done` have been applied:
   * `from` names, for each field some applied key has set, the key that set it last.
   */
  ghost predicate FieldsTracked(m: map<string, seq<string>>, pkg: Package, p: Package, done: set<string>, from: map<Field, string>) {
    && (forall f :: f in from ==>
          from[f] in done && from[f] in m && FieldOf(Trim(from[f])) == Some(f) && Get(p, f) == ValueOf(f, m[from[f]]))
    && (forall f :: f !in from ==> Get(p, f) == Get(pkg, f))
    && (forall k :: k in done && FieldOf(Trim(k)).Some? ==> FieldOf(Trim(k)).value in from)
  }

  /**
   * Applying one more entry keeps the field bookkeeping; `q` is the package after the entry,
   * as `ApplyEntry` promises it: the entry's own field changed, if any, and nothing else.
   */
  lemma FieldsTrackedStep(m: map<string, seq<string>>, pkg: Package, p: Package, q: Package,
                          done: set<string>, from: map<Field, string>, k: string)
    requires FieldsTracked(m, pkg, p, done, from) && k in m
    requires FieldOf(Trim(k)).None? ==> q == p
    requires FieldOf(Trim(k)).Some? ==>
      && Get(q, FieldOf(Trim(k)).value) == ValueOf(FieldOf(Trim(k)).value, m[k])
      && forall f :: f != FieldOf(Trim(k)).value ==> Get(q, f) == Get(p, f)
    ensures FieldsTracked(m, pkg, q, done + {k},
      if FieldOf(Trim(k)).None? then from else from[FieldOf(Trim(k)).value := k])
  {
    var done' := done + {k};
    match FieldOf(Trim(k))
    case None =>
      forall j | j in done' && FieldOf(Trim(j)).Some? ensures FieldOf(Trim(j)).value in from {
        assert j in done;
      }
    case Some(g) =>
      var from' := from[g := k];
      forall f | f in from'
        ensures from'[f] in done' && from'[f] in m && FieldOf(Trim(from'[f])) == Some(f)
        ensures Get(q, f) == ValueOf(f, m[from'[f]])
      {
        if f != g {
          assert Get(q, f) == Get(p, f);
        }
      }
      forall f | f !in from' ensures Get(q, f) == Get(pkg, f) {
        assert Get(q, f) == Get(p, f);
      }
      forall j | j in done' && FieldOf(Trim(j)).Some? ensures FieldOf(Trim(j)).value in from' {
      }
  }

  /** Each field holds the value of some key that names it, or its old value when no key names it. */
  ghost predicate FieldsFromKeys(m: map<string, seq<string>>, pkg: Package, p: Package) {
    forall f ::
      if exists k :: k in m && FieldOf(Trim(k)) == Some(f) then
        exists k :: k in m && FieldOf(Trim(k)) == Some(f) && Get(p, f) == ValueOf(f, m[k])
      else
        Get(p, f) == Get(pkg, f)
  }

  /** Each field holds the value of its own key, or its old value when the map lacks that key. */
  ghost predicate FieldsByName(m: map<string, seq<string>>, pkg: Package, p: Package) {
    forall f :: Get(p, f) == if KeyName(f) in m then ValueOf(f, m[KeyName(f)]) else Get(pkg, f)
  }

  /**
   * The order in which the map hands out its entries cannot show in the result: two packages
   * that both take each field from its own key are the same package.
   */
  lemma ByNameUnique(m: map<string, seq<string>>, pkg: Package, p: Package, q: Package)
    requires FieldsByName(m, pkg, p) && FieldsByName(m, pkg, q)
    ensures p == q
  {
    forall f ensures Get(p, f) == Get(q, f) {
    }
    GetDetermines(p, q);
  }

  /** Once every key has been applied, the bookkeeping gives the mapper's outcome. */
  lemma FieldsTrackedComplete(m: map<string, seq<string>>, pkg: Package, p: Package, from: map<Field, string>)
    requires FieldsTracked(m, pkg, p, m.Keys, from)
    ensures FieldsFromKeys(m, pkg, p)
    ensures KeysTrimmed(m) ==> FieldsByName(m, pkg, p)
  {
    forall f ensures
      if exists k :: k in m && FieldOf(Trim(k)) == Some(f) then
        exists k :: k in m && FieldOf(Trim(k)) == Some(f) && Get(p, f) == ValueOf(f, m[k])
      else
        Get(p, f) == Get(pkg, f)
    {
      if f in from {
        assert FieldOf(Trim(from[f])) == Some(f);
      }
    }
    if KeysTrimmed(m) {
      forall f ensures Get(p, f) == if KeyName(f) in m then ValueOf(f, m[KeyName(f)]) else Get(pkg, f) {
        FieldOfKeyName(f);
        if f in from {
          assert Trim(from[f]) == from[f] == KeyName(f);
        } else if KeyName(f) in m {
          assert false;
        }
      }
    }
  }

  /**
   * Loop bookkeeping of `ExprToPkg` for the warnings: `visited` lists, in the order they were
   * applied and without repeats, exactly the applied keys that are not in the table, and the
   * warnings are their trimmed names, one each, in that order.
   */
  ghost predicate WarningsTracked(done: set<string>, visited: seq<string>, warnings: seq<string>) {
    && (forall i :: 0 <= i < |visited| ==> visited[i] in done && FieldOf(Trim(visited[i])).None?)
    && (forall k :: k in done && FieldOf(Trim(k)).None? ==> k in visited)
    && (forall i, j :: 0 <= i < j < |visited| ==> visited[i] != visited[j])
    && |warnings| == |visited|
    && (forall i :: 0 <= i < |warnings| ==> warnings[i] == Trim(visited[i]))
  }

  /** Applying one more entry, and warning about it if its key is unknown, keeps the warning bookkeeping. */
  lemma WarningsTrackedStep(done: set<string>, visited: seq<string>, warnings: seq<string>, k: string)
    requires WarningsTracked(done, visited, warnings) && k !in done
    ensures FieldOf(Trim(k)).None? ==> WarningsTracked(done + {k}, visited + [k], warnings + [Trim(k)])
    ensures FieldOf(Trim(k)).Some? ==> WarningsTracked(done + {k}, visited, warnings)
  {
    if FieldOf(Trim(k)).None? {
      var visited', warnings' := visited + [k], warnings + [Trim(k)];
      forall i, j | 0 <= i < j < |visited'| ensures visited'[i] != visited'[j] {
        if j == |visited| { assert visited'[i] == visited[i] && visited[i] in done; }
      }
      forall i | 0 <= i < |warnings'| ensures warnings'[i] == Trim(visited'[i]) {
        if i < |warnings| { assert warnings'[i] == warnings[i]; }
      }
    }
  }

  /**
   * The warnings of a mapping: one per entry whose key is not in the table, naming its trimmed
   * key, and no other. `visited` lists those entries, each once, in the order they were warned about.
   */
  ghost predicate WarningsFor(m: map<string, seq<string>>, visited: seq<string>, warnings: seq<string>) {
    && (forall i :: 0 <= i < |visited| ==> visited[i] in m && FieldOf(Trim(visited[i])).None?)
    && (forall k :: k in m && FieldOf(Trim(k)).None? ==> k in visited)
    && (forall i, j :: 0 <= i < j < |visited| ==> visited[i] != visited[j])
    && |warnings| == |visited|
    && (forall i :: 0 <= i < |warnings| ==> warnings[i] == Trim(visited[i]))
  }

  /** Once every key has been applied, the bookkeeping gives the mapper's warnings. */
  lemma WarningsTrackedComplete(m: map<string, seq<string>>, visited: seq<string>, warnings: seq<string>)
    requires WarningsTracked(m.Keys, visited, warnings)
    ensures WarningsFor(m, visited, warnings)
  {
  }

  /**
   * With trimmed keys, as a parsed map has them, the warnings name the unknown keys of the
   * map, each exactly once.
   */
  lemma {:induction false} WarningsOfTrimmed(m: map<string, seq<string>>, visited: seq<string>, warnings: seq<string>)
    requires WarningsFor(m, visited, warnings) && KeysTrimmed(m)
    ensures forall w :: w in warnings <==> w in UnknownKeys(m)
    ensures forall i, j :: 0 <= i < j < |warnings| ==> warnings[i] != warnings[j]
  {
    forall w ensures w in warnings <==> w in UnknownKeys(m) {
      if w in warnings {
        var i :| 0 <= i < |warnings| && warnings[i] == w;
        assert visited[i] in m && Trim(visited[i]) == visited[i];
      }
      if w in UnknownKeys(m) {
        var k :| k in m && FieldOf(Trim(k)).None? && Trim(k) == w;
        var i :| 0 <= i < |visited| && visited[i] == k;
        assert warnings[i] == w;
      }
    }
    forall i, j | 0 <= i < j < |warnings| ensures warnings[i] != warnings[j] {
      assert Trim(visited[i]) == visited[i] && Trim(visited[j]) == visited[j];
    }
  }

  /**
   * `expr_to_pkg`: every entry of the map is applied to the package, in an order the map
   * chooses. It fails if some scalar key has an empty list; otherwise a field keeps its old
   * value when no key names it and takes the value of a key that names it otherwise, and
   * there is one warning per unknown key. When the keys are trimmed (always, for a parsed
   * map) the result does not depend on the order: each field takes the value of its own key.
   */
  method ExprToPkg(parseMap: map<string, seq<string>>, pkg: Package)
    returns (r: Result<Package, MapError>, warnings: seq<string>, ghost visited: seq<string>)
    ensures r.Err? <==> exists k :: k in parseMap && MissingScalar(k, parseMap[k])
    ensures r.Ok? ==> FieldsFromKeys(parseMap, pkg, r.value)
    ensures r.Ok? && KeysTrimmed(parseMap) ==> FieldsByName(parseMap, pkg, r.value)
    ensures r.Ok? ==> WarningsFor(parseMap, visited, warnings)
  {
    var done: set<string> := {};
    var p := pkg;
    warnings := [];
    visited := [];
    ghost var from: map<Field, string> := map[];
    while done != parseMap.Keys
      invariant done <= parseMap.Keys
      invariant forall k :: k in done ==> !MissingScalar(k, parseMap[k])
      invariant FieldsTracked(parseMap, pkg, p, done, from)
      invariant WarningsTracked(done, visited, warnings)
      decreases parseMap.Keys - done
    {
      var lexpr :| lexpr in parseMap && lexpr !in done;
      var rexpr := parseMap[lexpr];
      var applied := ApplyEntry(p, lexpr, rexpr);
      if applied.Err? {
        return Err(applied.error), warnings, visited;
      }
      FieldsTrackedStep(parseMap, pkg, p, applied.value, done, from, lexpr);
      WarningsTrackedStep(done, visited, warnings, lexpr);
      p := applied.value;
      if FieldOf(Trim(lexpr)).None? {
        warnings := warnings + [Trim(lexpr)];
        visited := visited + [lexpr];
      } else {
        from := from[FieldOf(Trim(lexpr)).value := lexpr];
      }
      done := done + {lexpr};
    }
    WarningsTrackedComplete(parseMap, visited, warnings);
    FieldsTrackedComplete(parseMap, pkg, p, from);
    r := Ok(p);
  }
}
