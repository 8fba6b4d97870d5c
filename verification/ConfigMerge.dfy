/**
 * The recursive JSON merge behind the `CODEX_CONFIG` environment variable
 * (`deep_merge` and `build_codex_config_env`).
 */
module ConfigMerge {
  import opened Wrappers
  import opened JsonValues

  type Fields = map<string, Json>

  /** What `deep_merge` leaves in `base`. */
  ghost function Merge(base: Fields, overlay: Fields): Fields
    decreases Obj(overlay)
  {
    map k | k in base.Keys + overlay.Keys :: MergedField(base, overlay, k)
  }

  ghost function MergedField(base: Fields, overlay: Fields, k: string): Json
    requires k in base || k in overlay
    decreases Obj(overlay), 0
  {
    if k !in overlay then base[k]
    else if k in base && base[k].Obj? && overlay[k].Obj? then Obj(Merge(base[k].fields, overlay[k].fields))
    else overlay[k]
  }

  /** The source walks the overlay in an unspecified key order; the result does not depend on it. */
  method DeepMerge(base: Fields, overlay: Fields) returns (merged: Fields)
    ensures merged == Merge(base, overlay)
    decreases Obj(overlay)
  {
    merged := base;
    var rest := overlay.Keys;
    while rest != {}
      invariant rest <= overlay.Keys
      invariant merged.Keys == base.Keys + (overlay.Keys - rest)
      invariant forall k | k in merged ::
        merged[k] == if k in rest then base[k] else MergedField(base, overlay, k)
    {
      var k :| k in rest;
      if k in merged && merged[k].Obj? && overlay[k].Obj? {
        var inner := DeepMerge(merged[k].fields, overlay[k].fields);
        merged := merged[k := Obj(inner)];
      } else {
        merged := merged[k := overlay[k]];
      }
      rest := rest - {k};
    }
  }

  /** Walking `path` through `o` reaches an object that lacks the next key. */
  ghost predicate FallsOff(o: Json, path: seq<string>)
    decreases |path|
  {
    path != [] && o.Obj? && (path[0] !in o.fields || FallsOff(o.fields[path[0]], path[1..]))
  }

  /** `o` put over whatever the base had at the same path. */
  ghost function Overlaid(b: Option<Json>, o: Json): Json {
    if o.Obj? && b.Some? && b.value.Obj? then Obj(Merge(b.value.fields, o.fields)) else o
  }

  /** The merge, seen through every path: where the overlay falls off, the base shows through. */
  lemma {:induction false} MergeAt(base: Fields, overlay: Fields, path: seq<string>)
    ensures At(Obj(Merge(base, overlay)), path) ==
            if FallsOff(Obj(overlay), path) then At(Obj(base), path)
            else match At(Obj(overlay), path)
              case None => None
              case Some(o) => Some(Overlaid(At(Obj(base), path), o))
    decreases |path|
  {
    if path != [] && path[0] in overlay {
      var k, tail := path[0], path[1..];
      if k in base && base[k].Obj? && overlay[k].Obj? {
        MergeAt(base[k].fields, overlay[k].fields, tail);
      } else if overlay[k].Obj? {
        NothingBelow(if k in base then base[k] else Null, tail);
        WholeOverlay(overlay[k], tail);
      }
    }
  }

  lemma {:induction false} NothingBelow(j: Json, path: seq<string>)
    requires !j.Obj?
    ensures path != [] ==> At(j, path) == None
  {
  }

  lemma {:induction false} WholeOverlay(o: Json, path: seq<string>)
    ensures FallsOff(o, path) ==> At(o, path) == None
    decreases |path|
  {
    if path != [] && o.Obj? && path[0] in o.fields {
      WholeOverlay(o.fields[path[0]], path[1..]);
    }
  }

  /** `v` is the leaf, that is the value that is not an object, which `o` holds at `path`. */
  ghost predicate LeafAt(o: Fields, path: seq<string>, v: Json) {
    !v.Obj? && At(Obj(o), path) == Some(v)
  }

  /** Every overlay leaf is kept, a base leaf survives exactly where the overlay falls off, nothing else appears. */
  lemma MergeLeaves(base: Fields, overlay: Fields, path: seq<string>, v: Json)
    ensures LeafAt(Merge(base, overlay), path, v) <==>
            LeafAt(overlay, path, v) || (LeafAt(base, path, v) && FallsOff(Obj(overlay), path))
  {
    MergeAt(base, overlay, path);
    WholeOverlay(Obj(overlay), path);
  }

  /** Every key of `a`, at every depth both share, is a key of `c`. */
  ghost predicate Covers(c: Fields, a: Fields)
    decreases Obj(c)
  {
    forall k | k in a :: k in c && CoversAt(c, a, k)
  }

  ghost predicate CoversAt(c: Fields, a: Fields, k: string)
    requires k in a && k in c
    decreases Obj(c), 0
  {
    a[k].Obj? && c[k].Obj? ==> Covers(c[k].fields, a[k].fields)
  }

  lemma {:induction false} CoveredAddsNothing(a: Fields, c: Fields)
    ensures Merge(a, c) == c <==> Covers(c, a)
    decreases Obj(c)
  {
    forall k | k in a && k in c && a[k].Obj? && c[k].Obj? {
      CoveredAddsNothing(a[k].fields, c[k].fields);
    }
    var m := Merge(a, c);
    assert forall k | k in m :: m[k] == MergedField(a, c, k);
    hide Merge;
    if Covers(c, a) {
      assert m.Keys == c.Keys;
    } else {
      var k :| k in a && !(k in c && CoversAt(c, a, k));
      assert k in m && (k in c ==> m[k] != c[k]);
    }
  }

  /** Nowhere does a non-object of the middle source stand between an object and one that lacks some key of it. */
  ghost predicate Regroups(a: Fields, b: Fields, c: Fields)
    decreases Obj(c)
  {
    forall k | k in a && k in b && k in c :: RegroupsAt(a, b, c, k)
  }

  ghost predicate RegroupsAt(a: Fields, b: Fields, c: Fields, k: string)
    requires k in a && k in b && k in c
    decreases Obj(c), 0
  {
    a[k].Obj? && c[k].Obj? ==>
      if b[k].Obj? then Regroups(a[k].fields, b[k].fields, c[k].fields) else Covers(c[k].fields, a[k].fields)
  }

  ghost predicate Agrees(a: Fields, b: Fields, c: Fields) { Merge(Merge(a, b), c) == Merge(a, Merge(b, c)) }

  lemma AgreesAt(a: Fields, b: Fields, c: Fields, k: string)
    requires k in a || k in b || k in c
    ensures k in Merge(Merge(a, b), c) && k in Merge(a, Merge(b, c))
    ensures Merge(Merge(a, b), c)[k] == Merge(a, Merge(b, c))[k] <==>
            (k in a && k in b && k in c && a[k].Obj? && c[k].Obj? ==>
               if b[k].Obj? then Agrees(a[k].fields, b[k].fields, c[k].fields)
               else Merge(a[k].fields, c[k].fields) == c[k].fields)
  {
    var ab, bc := Merge(a, b), Merge(b, c);
    assert k in Merge(ab, c) && Merge(ab, c)[k] == MergedField(ab, c, k);
    assert k in Merge(a, bc) && Merge(a, bc)[k] == MergedField(a, bc, k);
    assert k in ab ==> ab[k] == MergedField(a, b, k);
    assert k in bc ==> bc[k] == MergedField(b, c, k);
    hide Merge;
  }

  /** Exactly when the grouping of three sources does not matter. */
  lemma {:induction false} MergeAssociatesIff(a: Fields, b: Fields, c: Fields)
    ensures Merge(Merge(a, b), c) == Merge(a, Merge(b, c)) <==> Regroups(a, b, c)
    decreases Obj(c)
  {
    var left, right := Merge(Merge(a, b), c), Merge(a, Merge(b, c));
    assert left.Keys == a.Keys + b.Keys + c.Keys == right.Keys;
    hide Merge, Covers;
    forall k | k in left
      ensures left[k] == right[k] <==> (k in a && k in b && k in c ==> RegroupsAt(a, b, c, k))
    {
      AgreesAt(a, b, c, k);
      if k in a && k in b && k in c && a[k].Obj? && c[k].Obj? {
        CoveredAddsNothing(a[k].fields, c[k].fields);
        if b[k].Obj? {
          MergeAssociatesIff(a[k].fields, b[k].fields, c[k].fields);
        }
      }
    }
    hide RegroupsAt;
    if Regroups(a, b, c) {
      assert left == right;
    } else {
      var k :| k in a && k in b && k in c && !RegroupsAt(a, b, c, k);
      assert left[k] != right[k];
    }
  }

  /** An instance where the grouping matters: the middle source replaces an object by a scalar. */
  lemma MergeNotAssociative()
    ensures exists a, b, c: Fields :: Merge(Merge(a, b), c) != Merge(a, Merge(b, c))
  {
    var a: Fields, b: Fields, c: Fields := map["k" := Obj(map["x" := Null])], map["k" := Null], map["k" := Obj(map[])];
    assert "x" in Merge(a["k"].fields, c["k"].fields);
    assert !RegroupsAt(a, b, c, "k");
    MergeAssociatesIff(a, b, c);
  }

  // ---- build_codex_config_env ----

  const KEY := "CODEX_CONFIG"
  const SANDBOX := "sandbox_workspace_write"
  const NETWORK := "network_access"

  datatype Source = Persona | Generated | Parent

  datatype ConfigError =
    | InvalidJson(source: Source)
    | NotAnObject(source: Source)
    | SandboxNotAnObject(found: Json)

  /** One `CODEX_CONFIG` text read by the JSON parser `parse`. */
  function ReadFields(parse: string -> Option<Json>, raw: string, source: Source): Result<Fields, ConfigError> {
    match parse(raw)
    case None => Err(InvalidJson(source))
    case Some(j) => if j.Obj? then Ok(j.fields) else Err(NotAnObject(source))
  }

  function SourceOf(i: nat): Source { if i == 0 then Persona else Generated }

  /** The values of the `CODEX_CONFIG` entries, in order. */
  function Entries(extraEnv: seq<(string, string)>): seq<string> {
    if extraEnv == [] then []
    else (if extraEnv[0].0 == KEY then [extraEnv[0].1] else []) + Entries(extraEnv[1..])
  }

  /** `sources[0]` with every later source merged over it, in order. */
  ghost function MergeAll(sources: seq<Fields>): Fields
    requires sources != []
  {
    if |sources| == 1 then sources[0]
    else Merge(MergeAll(sources[..|sources| - 1]), sources[|sources| - 1])
  }

  /** The texts to merge, lowest precedence first: the entries, then the parent environment. */
  function Texts(extraEnv: seq<(string, string)>, parent: Option<string>): seq<(string, Source)> {
    var entries := Entries(extraEnv);
    seq(|entries|, i requires 0 <= i < |entries| => (entries[i], SourceOf(i)))
    + (if parent.Some? then [(parent.value, Parent)] else [])
  }

  /** The objects `texts` spell, or the first failure among them. */
  ghost function ReadAll(parse: string -> Option<Json>, texts: seq<(string, Source)>): (r: Result<seq<Fields>, ConfigError>)
    ensures r.Ok? ==> |r.value| == |texts|
  {
    if texts == [] then Ok([])
    else
      var front, last := ReadAll(parse, texts[..|texts| - 1]), texts[|texts| - 1];
      if front.Err? then front
      else
        var fields := ReadFields(parse, last.0, last.1);
        if fields.Err? then Err(fields.error) else Ok(front.value + [fields.value])
  }

  ghost predicate SandboxFree(merged: Fields) {
    SANDBOX in merged ==> merged[SANDBOX].Obj?
  }

  /** `merged` with network access forced on. */
  ghost function Forced(merged: Fields): Fields
    requires SandboxFree(merged)
  {
    var inner: Fields := if SANDBOX in merged then merged[SANDBOX].fields else map[];
    merged[SANDBOX := Obj(inner[NETWORK := Bool(true)])]
  }

  ghost function CodexConfig(
    parse: string -> Option<Json>, extraEnv: seq<(string, string)>, parent: Option<string>, hasGenerated: bool
  ): Result<Option<Fields>, ConfigError>
  {
    if !hasGenerated || Entries(extraEnv) == [] then Ok(None)
    else
      var sources := ReadAll(parse, Texts(extraEnv, parent));
      if sources.Err? then Err(sources.error)
      else
        var merged := MergeAll(sources.value);
        if SandboxFree(merged) then Ok(Some(Forced(merged))) else Err(SandboxNotAnObject(merged[SANDBOX]))
  }

  lemma ReadNext(parse: string -> Option<Json>, texts: seq<(string, Source)>, i: nat)
    requires i < |texts|
    ensures ReadAll(parse, texts[..i + 1]) ==
            var front := ReadAll(parse, texts[..i]);
            if front.Err? then front
            else
              var fields := ReadFields(parse, texts[i].0, texts[i].1);
              if fields.Err? then Err(fields.error) else Ok(front.value + [fields.value])
  {
    assert texts[..i + 1][..i] == texts[..i];
  }

  lemma {:induction false} FailureStays(parse: string -> Option<Json>, texts: seq<(string, Source)>, i: nat)
    requires i <= |texts|
    requires ReadAll(parse, texts[..i]).Err?
    ensures ReadAll(parse, texts) == ReadAll(parse, texts[..i])
    decreases |texts| - i
  {
    if i == |texts| {
      assert texts[..i] == texts;
    } else {
      ReadNext(parse, texts, i);
      FailureStays(parse, texts, i + 1);
    }
  }

  method ReadEntries(parse: string -> Option<Json>, entries: seq<string>, ghost texts: seq<(string, Source)>)
    returns (r: Result<seq<Fields>, ConfigError>)
    requires |entries| <= |texts|
    requires forall i | 0 <= i < |entries| :: texts[i] == (entries[i], SourceOf(i))
    ensures r.Ok? ==> r == ReadAll(parse, texts[..|entries|])
    ensures r.Err? ==> r == ReadAll(parse, texts)
  {
    var parsed: seq<Fields> := [];
    for i := 0 to |entries|
      invariant ReadAll(parse, texts[..i]) == Ok(parsed)
    {
      ReadNext(parse, texts, i);
      var fields := ReadFields(parse, entries[i], SourceOf(i));
      if fields.Err? {
        FailureStays(parse, texts, i + 1);
        return Err(fields.error);
      }
      parsed := parsed + [fields.value];
    }
    r := Ok(parsed);
  }

  method MergeEntries(sources: seq<Fields>) returns (base: Fields)
    requires sources != []
    ensures base == MergeAll(sources)
  {
    base := sources[0];
    for i := 1 to |sources|
      invariant base == MergeAll(sources[..i])
    {
      assert sources[..i + 1][..i] == sources[..i];
      base := DeepMerge(base, sources[i]);
    }
    assert sources[..|sources|] == sources;
  }

  method BuildCodexConfigEnv(
    parse: string -> Option<Json>, extraEnv: seq<(string, string)>, parent: Option<string>, hasGenerated: bool
  ) returns (r: Result<Option<Fields>, ConfigError>)
    ensures r == CodexConfig(parse, extraEnv, parent, hasGenerated)
  {
    if !hasGenerated {
      return Ok(None);
    }
    var entries := Entries(extraEnv);
    if entries == [] {
      return Ok(None);
    }
    ghost var texts := Texts(extraEnv, parent);
    var parsed := ReadEntries(parse, entries, texts);
    if parsed.Err? {
      return Err(parsed.error);
    }
    var base := MergeEntries(parsed.value);
    if parent.Some? {
      ReadNext(parse, texts, |entries|);
      assert texts[..|entries| + 1] == texts;
      var fields := ReadFields(parse, parent.value, Parent);
      if fields.Err? {
        return Err(fields.error);
      }
      assert (parsed.value + [fields.value])[..|entries|] == parsed.value;
      base := DeepMerge(base, fields.value);
    } else {
      assert texts[..|entries|] == texts;
    }
    var sandbox := if SANDBOX in base then base[SANDBOX] else Obj(map[]);
    if !sandbox.Obj? {
      return Err(SandboxNotAnObject(sandbox));
    }
    r := Ok(Some(base[SANDBOX := Obj(sandbox.fields[NETWORK := Bool(true)])]));
  }

  ghost predicate DecidedBy(sources: seq<Fields>, i: nat, path: seq<string>, v: Json)
    requires i < |sources|
  {
    LeafAt(sources[i], path, v) && forall j | i < j < |sources| :: FallsOff(Obj(sources[j]), path)
  }

  ghost predicate SomeDecides(sources: seq<Fields>, path: seq<string>, v: Json) {
    exists i: nat :: i < |sources| && DecidedBy(sources, i, path, v)
  }

  /** Later sources win: a leaf of the merge is the leaf of the last source that does not fall off its path. */
  lemma {:induction false} LastSourceDecides(sources: seq<Fields>, path: seq<string>, v: Json)
    requires sources != []
    ensures LeafAt(MergeAll(sources), path, v) <==> SomeDecides(sources, path, v)
  {
    var last := |sources| - 1;
    if last == 0 {
      if LeafAt(MergeAll(sources), path, v) {
        assert DecidedBy(sources, 0, path, v);
      }
    } else {
      var front := sources[..last];
      LastSourceDecides(front, path, v);
      MergeLeaves(MergeAll(front), sources[last], path, v);
      hide Merge, LeafAt, FallsOff;
      if LeafAt(sources[last], path, v) {
        assert DecidedBy(sources, last, path, v);
      } else if LeafAt(MergeAll(sources), path, v) {
        var i: nat :| i < |front| && DecidedBy(front, i, path, v);
        assert DecidedBy(sources, i, path, v);
      }
      forall i: nat | i < last && DecidedBy(sources, i, path, v)
        ensures DecidedBy(front, i, path, v)
      {
      }
    }
  }

  const TARGET := [SANDBOX, NETWORK]

  /** Every leaf of a finished configuration: network access is on, and everything else is as merged. */
  lemma ForcedLeaves(merged: Fields, path: seq<string>, v: Json)
    requires SandboxFree(merged)
    ensures LeafAt(Forced(merged), path, v) <==>
            (path == TARGET && v == Bool(true)) || (!(TARGET <= path) && LeafAt(merged, path, v))
  {
    assert TARGET <= path ==> |path| >= 2 && path[0] == TARGET[0];
    if |path| > 1 && path[0] == SANDBOX {
      var inner := path[1..];
      var was := if SANDBOX in merged then merged[SANDBOX] else Obj(map[]);
      assert path == [SANDBOX] + inner;
      assert At(Obj(Forced(merged)), path) == At(Forced(merged)[SANDBOX], inner);
      assert SANDBOX in merged ==> At(Obj(merged), path) == At(was, inner);
      if inner[0] == NETWORK {
        assert path == TARGET + inner[1..];
        NothingBelow(Bool(true), inner[1..]);
        assert At(Forced(merged)[SANDBOX], inner) == At(Bool(true), inner[1..]);
      } else {
        assert !(TARGET <= path);
      }
    } else if |path| == 1 {
      assert path[1..] == [] && path != TARGET;
      assert At(Obj(Forced(merged)), path) == Get(Obj(Forced(merged)), path[0]);
      assert At(Obj(merged), path) == Get(Obj(merged), path[0]);
    } else if path != [] {
      assert At(Obj(Forced(merged)), path) == At(Obj(merged), path);
    }
  }

  // ---- The entries by their place in the environment ----

  /** An entry is taken exactly if it is named `CODEX_CONFIG`, and after all earlier ones. */
  lemma {:induction false} EntriesAppend(env: seq<(string, string)>, name: string, value: string)
    ensures Entries(env + [(name, value)]) == Entries(env) + if name == "CODEX_CONFIG" then [value] else []
  {
    if env == [] {
      assert env + [(name, value)] == [(name, value)];
    } else {
      EntriesAppend(env[1..], name, value);
      assert (env + [(name, value)])[1..] == env[1..] + [(name, value)];
    }
  }

  ghost predicate IsEntry(env: seq<(string, string)>, i: nat) { i < |env| && env[i].0 == "CODEX_CONFIG" }

  /** The number of entries before position `i`. */
  ghost function Rank(env: seq<(string, string)>, i: nat): nat
    requires i <= |env|
  {
    |Entries(env[..i])|
  }

  lemma EntriesNext(env: seq<(string, string)>, i: nat)
    requires i < |env|
    ensures Entries(env[..i + 1]) == Entries(env[..i]) + if IsEntry(env, i) then [env[i].1] else []
  {
    EntriesAppend(env[..i], env[i].0, env[i].1);
    assert env[..i + 1] == env[..i] + [(env[i].0, env[i].1)];
  }

  lemma {:induction false} EntriesPrefix(env: seq<(string, string)>, i: nat, j: nat)
    requires i <= j <= |env|
    ensures Entries(env[..i]) <= Entries(env[..j])
  {
    if i < j {
      EntriesPrefix(env, i, j - 1);
      EntriesNext(env, j - 1);
    }
  }

  /** Each entry stands in the list where its rank says. */
  lemma RankPlaces(env: seq<(string, string)>, i: nat)
    requires IsEntry(env, i)
    ensures Rank(env, i) < |Entries(env)| && Entries(env)[Rank(env, i)] == env[i].1
  {
    EntriesNext(env, i);
    EntriesPrefix(env, i + 1, |env|);
    assert env[..|env|] == env;
    hide Entries;
  }

  /** And every place in the list is that of an entry. */
  lemma {:induction false} PlaceRanked(env: seq<(string, string)>, n: nat, k: nat) returns (i: nat)
    requires n <= |env| && k < |Entries(env[..n])|
    ensures i < n && IsEntry(env, i) && Rank(env, i) == k
  {
    EntriesNext(env, n - 1);
    hide Entries;
    if k < |Entries(env[..n - 1])| {
      i := PlaceRanked(env, n - 1, k);
    } else {
      i := n - 1;
    }
  }

  lemma RankGrows(env: seq<(string, string)>, i: nat, j: nat)
    requires IsEntry(env, i) && i < j <= |env|
    ensures Rank(env, i) < Rank(env, j)
  {
    EntriesNext(env, i);
    EntriesPrefix(env, i + 1, j);
  }

  /** The object an environment value spells. */
  ghost predicate Spells(parse: string -> Option<Json>, raw: string, fields: Fields) { parse(raw) == Some(Obj(fields)) }

  lemma {:induction false} ReadAllSpells(parse: string -> Option<Json>, texts: seq<(string, Source)>, k: nat)
    requires ReadAll(parse, texts).Ok? && k < |texts|
    ensures Spells(parse, texts[k].0, ReadAll(parse, texts).value[k])
  {
    var n := |texts| - 1;
    if k < n {
      ReadAllSpells(parse, texts[..n], k);
    }
  }

  /** A build is refused for the first text that is no JSON object, and says of which source and why. */
  lemma {:induction false} FirstFailure(parse: string -> Option<Json>, texts: seq<(string, Source)>, k: nat)
    requires k < |texts| && ReadAll(parse, texts[..k]).Ok?
    requires parse(texts[k].0).None? || !parse(texts[k].0).value.Obj?
    ensures ReadAll(parse, texts) ==
            Err(if parse(texts[k].0).None? then InvalidJson(texts[k].1) else NotAnObject(texts[k].1))
  {
    ReadNext(parse, texts, k);
    FailureStays(parse, texts, k + 1);
  }

  /** Where the texts come from: the entries in order, the first of them the persona's, then the parent environment. */
  lemma TextsPlaced(env: seq<(string, string)>, parent: Option<string>, i: nat)
    ensures |Texts(env, parent)| == |Entries(env)| + if parent.Some? then 1 else 0
    ensures IsEntry(env, i) ==>
              Rank(env, i) < |Entries(env)|
              && Texts(env, parent)[Rank(env, i)] == (env[i].1, if Rank(env, i) == 0 then Persona else Generated)
    ensures parent.Some? ==> Texts(env, parent)[|Entries(env)|] == (parent.value, Parent)
  {
    if IsEntry(env, i) {
      RankPlaces(env, i);
    }
    hide Entries, Rank, IsEntry;
  }

  /** Nothing is built exactly if no configuration was generated or the environment has no entry. */
  lemma NothingBuiltIff(parse: string -> Option<Json>, env: seq<(string, string)>, parent: Option<string>, hasGenerated: bool)
    ensures CodexConfig(parse, env, parent, hasGenerated) == Ok(None) <==>
            !hasGenerated || forall i: nat | i < |env| :: env[i].0 != "CODEX_CONFIG"
  {
    if Entries(env) != [] {
      assert env[..|env|] == env;
      var i := PlaceRanked(env, |env|, 0);
      assert IsEntry(env, i);
    } else {
      forall i: nat | i < |env| ensures env[i].0 != "CODEX_CONFIG" {
        if IsEntry(env, i) {
          RankPlaces(env, i);
          assert false;
        }
      }
    }
    hide Entries, ReadAll, MergeAll;
  }

  /** Every entry after position `i`, and the parent environment, falls off the path. */
  ghost predicate LaterFallOff(
    parse: string -> Option<Json>, env: seq<(string, string)>, parent: Option<string>, i: int, path: seq<string>
  ) {
    && (forall j: nat | i < j && IsEntry(env, j) :: parse(env[j].1).Some? && FallsOff(parse(env[j].1).value, path))
    && (parent.Some? ==> parse(parent.value).Some? && FallsOff(parse(parent.value).value, path))
  }

  /** A leaf that entry `i` holds, with nothing later in its way. */
  ghost predicate EntryDecides(
    parse: string -> Option<Json>, env: seq<(string, string)>, parent: Option<string>, i: nat, path: seq<string>, v: Json
  ) {
    IsEntry(env, i) && parse(env[i].1).Some? && parse(env[i].1).value.Obj? && LeafAt(parse(env[i].1).value.fields, path, v)
    && LaterFallOff(parse, env, parent, i, path)
  }

  ghost predicate ParentDecides(parse: string -> Option<Json>, parent: Option<string>, path: seq<string>, v: Json) {
    parent.Some? && parse(parent.value).Some? && parse(parent.value).value.Obj?
    && LeafAt(parse(parent.value).value.fields, path, v)
  }

  /** Which source decides, by its place in the environment. */
  lemma DecidersPlaced(
    parse: string -> Option<Json>, env: seq<(string, string)>, parent: Option<string>, path: seq<string>, v: Json
  )
    requires ReadAll(parse, Texts(env, parent)).Ok? && Entries(env) != []
    ensures SomeDecides(ReadAll(parse, Texts(env, parent)).value, path, v) <==>
            ParentDecides(parse, parent, path, v) || exists i: nat :: EntryDecides(parse, env, parent, i, path, v)
  {
    var texts := Texts(env, parent);
    var sources := ReadAll(parse, texts).value;
    var n := |Entries(env)|;
    forall k | 0 <= k < |texts| ensures Spells(parse, texts[k].0, sources[k]) {
      ReadAllSpells(parse, texts, k);
    }
    forall i: nat | IsEntry(env, i)
      ensures Rank(env, i) < n && Spells(parse, env[i].1, sources[Rank(env, i)])
    {
      TextsPlaced(env, parent, i);
    }
    TextsPlaced(env, parent, 0);
    assert env[..|env|] == env;
    hide Entries, Texts, ReadAll, LeafAt, FallsOff;
    forall i: nat | IsEntry(env, i)
      ensures DecidedBy(sources, Rank(env, i), path, v) <==> EntryDecides(parse, env, parent, i, path, v)
    {
      PlaceDecides(parse, env, parent, sources, i, path, v);
    }
    if k: nat :| k < |sources| && DecidedBy(sources, k, path, v) {
      if k < n {
        var i := PlaceRanked(env, |env|, k);
        assert EntryDecides(parse, env, parent, i, path, v);
      } else {
        assert ParentDecides(parse, parent, path, v);
      }
    }
    if ParentDecides(parse, parent, path, v) {
      assert DecidedBy(sources, n, path, v);
    }
  }

  lemma PlaceDecides(
    parse: string -> Option<Json>, env: seq<(string, string)>, parent: Option<string>, sources: seq<Fields>,
    i: nat, path: seq<string>, v: Json
  )
    requires IsEntry(env, i) && |sources| == |Entries(env)| + if parent.Some? then 1 else 0
    requires forall j: nat | IsEntry(env, j) :: Rank(env, j) < |Entries(env)| && Spells(parse, env[j].1, sources[Rank(env, j)])
    requires parent.Some? ==> Spells(parse, parent.value, sources[|Entries(env)|])
    ensures DecidedBy(sources, Rank(env, i), path, v) <==> EntryDecides(parse, env, parent, i, path, v)
  {
    assert env[..|env|] == env;
    hide Entries, LeafAt, FallsOff;
    if DecidedBy(sources, Rank(env, i), path, v) {
      forall j: nat | i < j && IsEntry(env, j) ensures parse(env[j].1).Some? && FallsOff(parse(env[j].1).value, path) {
        RankGrows(env, i, j);
      }
    }
    if EntryDecides(parse, env, parent, i, path, v) {
      forall k | Rank(env, i) < k < |sources| ensures FallsOff(Obj(sources[k]), path) {
        if k < |Entries(env)| {
          var j := PlaceRanked(env, |env|, k);
          if j <= i {
            if j < i {
              RankGrows(env, j, i);
            }
            assert false;
          }
        }
      }
    }
  }

  /**
   * A configuration that is built grants network access, and its other leaves are exactly these: those of the parent
   * environment, and those of an entry whose path every later entry and the parent environment fall off.
   */
  lemma BuiltConfig(
    parse: string -> Option<Json>, env: seq<(string, string)>, parent: Option<string>, hasGenerated: bool,
    path: seq<string>, v: Json
  )
    requires CodexConfig(parse, env, parent, hasGenerated).Ok?
    requires CodexConfig(parse, env, parent, hasGenerated).value.Some?
    ensures var built := CodexConfig(parse, env, parent, hasGenerated).value.value;
            && LeafAt(built, ["sandbox_workspace_write", "network_access"], Bool(true))
            && (LeafAt(built, path, v) && path != TARGET <==>
                !(TARGET <= path)
                && (ParentDecides(parse, parent, path, v) || exists i: nat :: EntryDecides(parse, env, parent, i, path, v)))
  {
    var sources := ReadAll(parse, Texts(env, parent)).value;
    ForcedLeaves(MergeAll(sources), TARGET, Bool(true));
    ForcedLeaves(MergeAll(sources), path, v);
    LastSourceDecides(sources, path, v);
    DecidersPlaced(parse, env, parent, path, v);
    assert CodexConfig(parse, env, parent, hasGenerated).value.value == Forced(MergeAll(sources));
    assert TARGET <= TARGET;
    hide LeafAt, ReadAll, Texts, CodexConfig, Forced, MergeAll, DecidedBy, SomeDecides, EntryDecides, ParentDecides;
  }

  /** Why a build fails: the first text that spells no object, or a sandbox setting that is no object once all are merged. */
  lemma BuildFails(parse: string -> Option<Json>, env: seq<(string, string)>, parent: Option<string>)
    requires Entries(env) != []
    ensures var r := CodexConfig(parse, env, parent, true); var texts := Texts(env, parent); var all := ReadAll(parse, texts);
            && (all.Err? ==> r == Err(all.error))
            && (all.Ok? ==> (r.Err? <==> exists found :: At(Obj(MergeAll(all.value)), ["sandbox_workspace_write"]) == Some(found) && !found.Obj?))
            && (all.Ok? && r.Err? ==> At(Obj(MergeAll(all.value)), ["sandbox_workspace_write"]) == Some(r.error.found) && r.error.SandboxNotAnObject?)
  {
    assert ["sandbox_workspace_write"][1..] == [];
    hide MergeAll, ReadAll, Entries, Texts;
  }
}
