/**
 Environment variables of a command (domain/variables.go): resolving them in place, and
 listing them as `key=value` strings. Go iterates a map in no particular order; here every
 loop picks any remaining key, so what is proved holds for every order.
 */
module Variables {
  import opened Substitution
  import opened SubstitutionTheorems

  type VarMap = map<string, string>

  const DEFAULT_VARS: VarMap := map["_TYPE_" := "_string_"]

  // ---------------------------------------------------------------- one entry

  /** The loop stops on `s` without panic. */
  ghost predicate Stops(s: string, env: Env) {
    exists out :: Ends(s, 0, env, Finished(out))
  }

  ghost predicate AllStop(m: VarMap, env: Env) {
    forall k :: k in m ==> Stops(m[k], env)
  }

  /** What the in-place loop makes of a value. */
  ghost function Outcome(s: string, env: Env): (out: string)
    requires Stops(s, env)
    ensures Ends(s, 0, env, Finished(out))
  {
    var out :| Ends(s, 0, env, Finished(out));
    out
  }

  /** Every entry resolved against one and the same environment. */
  ghost function OutcomeAll(m: VarMap, env: Env): (r: VarMap)
    requires AllStop(m, env)
    ensures r.Keys == m.Keys
  {
    map k | k in m :: Outcome(m[k], env)
  }

  lemma OneOutcome(s: string, env: Env, end: Progress)
    requires Stops(s, env) && Ends(s, 0, env, end)
    ensures end == Finished(Outcome(s, env))
  {
    OneEnd(s, 0, env, end, Finished(Outcome(s, env)));
  }

  /** One entry's new value, computed by the in-place loop. */
  method ParseResolvable(s: string, env: Env) returns (out: string)
    requires Stops(s, env)
    ensures out == Outcome(s, env)
  {
    var end := ParseVariablesFrom(s, env);
    OneOutcome(s, env, end);
    out := end.out;
  }

  // ---------------------------------------------------------------- maps whose order does not matter

  /** The values referenced hold no token of a defined name; they may be short. */
  predicate TameMap(m: VarMap) {
    forall k :: k in m ==> Tame(m[k], m) && !EndsInDollar(m[k])
  }

  /**
   The values referenced may hold tokens, if these start no earlier than the jump over their
   own token lands and no name refers to itself through any number of others.
   */
  predicate Layered(m: VarMap, rank: map<string, nat>) {
    forall k :: k in m ==>
      && Flat(m[k]) && !EndsInDollar(m[k])
      && forall n :: n in Names(m[k]) && Defined(m, n) ==> k in rank && n in rank && rank[n] < rank[k] && Ready(m, n)
  }

  ghost predicate OrderFree(m: VarMap) {
    TameMap(m) || exists rank :: Layered(m, rank)
  }

  lemma {:induction false} SubstAgrees(s: string, e1: Env, e2: Env)
    requires forall n :: n in Names(s) ==> Lookup(e1, n) == Lookup(e2, n)
    ensures Subst(s, e1) == Subst(s, e2)
    decreases |s|
  {
    if s != "" {
      if Opens(s, 0) && Defined(e1, NameAt(s, 0)) {
        NamesOfSuffix(s, Close(s, 2) + 1);
        SubstAgrees(s[Close(s, 2) + 1..], e1, e2);
      } else {
        SubstAgrees(s[1..], e1, e2);
      }
    }
  }

  /** The value of `k` with the names in it replaced, and the names in those, and so on. */
  function FullValue(k: string, m: VarMap, rank: map<string, nat>): string
    requires Layered(m, rank) && k in m
    decreases if k in rank then rank[k] else 0
  {
    Subst(m[k], map n | n in Names(m[k]) && Defined(m, n) :: FullValue(n, m, rank))
  }

  function Full(m: VarMap, rank: map<string, nat>): (full: VarMap)
    requires Layered(m, rank)
    ensures full.Keys == m.Keys
  {
    map k | k in m :: FullValue(k, m, rank)
  }

  lemma FullOfEmpty(n: string, m: VarMap, rank: map<string, nat>)
    requires Layered(m, rank) && n in m
    ensures m[n] == "" <==> FullValue(n, m, rank) == ""
  {
  }

  lemma FullIsFixed(m: VarMap, rank: map<string, nat>, k: string)
    requires Layered(m, rank) && k in m
    ensures Full(m, rank)[k] == Subst(m[k], Full(m, rank))
    ensures m[k] == "" <==> Full(m, rank)[k] == ""
  {
    FullOfEmpty(k, m, rank);
    var part := map n | n in Names(m[k]) && Defined(m, n) :: FullValue(n, m, rank);
    assert FullValue(k, m, rank) == Subst(m[k], part);
    hide Subst, Opens, Flat;
    forall n | n in Names(m[k])
      ensures Lookup(part, n) == Lookup(Full(m, rank), n)
    {
      if n in m {
        FullOfEmpty(n, m, rank);
      }
    }
    SubstAgrees(m[k], part, Full(m, rank));
  }

  ghost function Referenced(m: VarMap): set<string> {
    set n | n in m && Defined(m, n) && exists k :: k in m && n in Names(m[k])
  }

  lemma SameDefined(now: VarMap, m: VarMap, rank: map<string, nat>)
    requires Layered(m, rank) && now.Keys == m.Keys
    requires forall k :: k in m ==> now[k] == m[k] || now[k] == Full(m, rank)[k]
    ensures forall n :: Defined(now, n) <==> Defined(Full(m, rank), n)
  {
    forall n
      ensures Defined(now, n) <==> Defined(Full(m, rank), n)
    {
      if n in m {
        FullIsFixed(m, rank, n);
      }
    }
  }

  /** Resolved entries that others refer to have nothing left to substitute, and cover their tokens. */
  lemma {:induction false} FullIsQuiet(m: VarMap, rank: map<string, nat>, n: string)
    requires Layered(m, rank) && n in Referenced(m)
    ensures var full := Full(m, rank); Quiet(full[n], full) && |full[n]| >= |Token(n)|
    decreases if n in rank then rank[n] else 0
  {
    var full := Full(m, rank);
    assert Ready(m, n);
    FullIsFixed(m, rank, n);
    SameDefined(m, m, rank);
    hide Quiet, Subst, Settled, Opens, Ready;
    forall x | x in Names(m[n]) && Defined(full, x)
      ensures Quiet(Lookup(full, x), full)
    {
      assert Defined(m, x);
      FullIsQuiet(m, rank, x);
    }
    assert CallsForQuiet(m[n], full);
    assert Flat(m[n]) && Closed(m[n]) by { ReadyIsClosed(m, n); }
    SubstQuiet(m[n], full);
    ReadyCovers(m, full, n);
  }

  lemma ReadyIsClosed(m: VarMap, n: string)
    requires Ready(m, n)
    ensures Flat(Lookup(m, n)) && Closed(Lookup(m, n))
  {
  }

  lemma ReadyCovers(env: Env, full: Env, n: string)
    requires Ready(env, n) && forall x :: Defined(env, x) <==> Defined(full, x)
    ensures |Subst(Lookup(env, n), full)| >= |Token(n)|
  {
    var w, y := ReadyCut(n, env);
    SettledFront(w, y, full);
  }

  /** However many entries are resolved already, the loop makes the same of the others. */
  lemma LayersResolve(now: VarMap, m: VarMap, rank: map<string, nat>)
    requires Layered(m, rank) && now.Keys == m.Keys
    requires forall k :: k in m ==> now[k] == m[k] || now[k] == Full(m, rank)[k]
    ensures Resolves(now, Full(m, rank), Referenced(m))
  {
    var full := Full(m, rank);
    SameDefined(now, m, rank);
    SameDefined(m, m, rank);
    forall n | n in Referenced(m)
      ensures Defined(now, n) && Ready(now, n) && Lookup(full, n) == Subst(Lookup(now, n), full)
      ensures forall x :: x in Names(Lookup(now, n)) && Defined(now, x) ==> x in Referenced(m)
    {
      FullIsFixed(m, rank, n);
      if now[n] != m[n] {
        FullIsQuiet(m, rank, n);
        QuietIsReady(now, full, n);
      }
    }
  }

  lemma QuietIsReady(now: Env, full: Env, n: string)
    requires Quiet(Lookup(now, n), full) && |Lookup(now, n)| >= |Token(n)|
    requires forall x :: Defined(now, x) <==> Defined(full, x)
    ensures Ready(now, n) && Subst(Lookup(now, n), full) == Lookup(now, n)
    ensures forall x :: x in Names(Lookup(now, n)) ==> !Defined(now, x)
  {
    var v := Lookup(now, n);
    assert v[..|v|] == v && Settled(v, now);
    SettledIsClosed(v, now);
    SettledNames(v, now);
    SettledFront(v, "", full);
  }

  lemma LayeredEnds(now: VarMap, m: VarMap, rank: map<string, nat>, key: string)
    requires Layered(m, rank) && now.Keys == m.Keys && key in m && now[key] == m[key]
    requires forall k :: k in m ==> now[k] == m[k] || now[k] == Full(m, rank)[k]
    ensures Ends(m[key], 0, now, Finished(Full(m, rank)[key]))
  {
    var full, deep := Full(m, rank), Referenced(m);
    LayersResolve(now, m, rank);
    SameDefined(m, m, rank);
    assert Fits(m[key], now, full, deep);
    FullIsFixed(m, rank, key);
    LoopIsDeepSubstitution(m[key], now, full, deep);
  }

  /** A layered map is resolved in depth: every entry becomes its value with all names in it, at any depth, replaced. */
  lemma OutcomeIsDeep(m: VarMap, rank: map<string, nat>)
    requires Layered(m, rank)
    ensures AllStop(m, m) && OutcomeAll(m, m) == Full(m, rank)
    ensures forall k :: k in m ==> Full(m, rank)[k] == Subst(m[k], Full(m, rank))
  {
    forall k | k in m
      ensures Stops(m[k], m) && Outcome(m[k], m) == Full(m, rank)[k]
      ensures Full(m, rank)[k] == Subst(m[k], Full(m, rank))
    {
      LayeredEnds(m, m, rank, k);
      OneOutcome(m[k], m, Finished(Full(m, rank)[k]));
      FullIsFixed(m, rank, k);
    }
  }

  lemma TameStop(s: string, env: Env)
    requires Tame(s, env) && !EndsInDollar(s)
    ensures Stops(s, env)
  {
    var end := TameStops(s, 0, env);
    assert end == Finished(end.out);
  }

  lemma OrderFreeStops(m: VarMap)
    requires OrderFree(m)
    ensures AllStop(m, m)
  {
    if TameMap(m) {
      forall k | k in m
        ensures Stops(m[k], m)
      {
        TameStop(m[k], m);
      }
    } else {
      var rank :| Layered(m, rank);
      OutcomeIsDeep(m, rank);
    }
  }

  /** Where the values suit, resolving every entry is substituting every entry once. */
  lemma OutcomeIsSubst(m: VarMap, env: Env)
    requires forall k :: k in m ==> Flat(m[k]) && !EndsInDollar(m[k]) && Suits(m[k], env)
    ensures AllStop(m, env) && OutcomeAll(m, env) == map k | k in m :: Subst(m[k], env)
  {
    forall k | k in m
      ensures Stops(m[k], env) && Outcome(m[k], env) == Subst(m[k], env)
    {
      LoopIsSubstitution(m[k], env);
      OneOutcome(m[k], env, Finished(Subst(m[k], env)));
    }
  }

  // ---------------------------------------------------------------- the map while it changes

  /** A map `m` part of whose entries have become those of `r`. */
  ghost predicate PartlyResolved(now: VarMap, m: VarMap, r: VarMap, todo: set<string>) {
    && now.Keys == m.Keys == r.Keys && todo <= m.Keys
    && forall k :: k in m ==> now[k] == if k in todo then m[k] else r[k]
  }

  lemma OneMore(now: VarMap, m: VarMap, r: VarMap, todo: set<string>, key: string)
    requires PartlyResolved(now, m, r, todo) && key in todo
    ensures PartlyResolved(now[key := r[key]], m, r, todo - {key})
  {
  }

  /** Resolved entries do not disturb an entry still to be resolved. */
  lemma StillTheSame(now: VarMap, m: VarMap, todo: set<string>, key: string)
    requires OrderFree(m) && AllStop(m, m) && PartlyResolved(now, m, OutcomeAll(m, m), todo) && key in todo
    ensures Stops(now[key], now) && Outcome(now[key], now) == Outcome(m[key], m)
  {
    var out := Outcome(m[key], m);
    hide Layered, TameMap, Ends;
    if TameMap(m) {
      TameStillTheSame(now, m, todo, key);
    } else {
      var rank :| Layered(m, rank);
      OutcomeIsDeep(m, rank);
      LayeredEnds(now, m, rank, key);
    }
    OneOutcome(now[key], now, Finished(out));
  }

  lemma TameStillTheSame(now: VarMap, m: VarMap, todo: set<string>, key: string)
    requires TameMap(m) && AllStop(m, m) && PartlyResolved(now, m, OutcomeAll(m, m), todo) && key in todo
    ensures Ends(m[key], 0, now, Finished(Outcome(m[key], m)))
  {
    assert Tame(m[key], m) && Stops(m[key], m);
    hide *;
    EntriesAgree(now, m, todo, key);
    SameEnd(m[key], m, now);
  }

  lemma EntriesAgree(now: VarMap, m: VarMap, todo: set<string>, key: string)
    requires TameMap(m) && AllStop(m, m) && PartlyResolved(now, m, OutcomeAll(m, m), todo) && key in todo
    ensures Agree(m[key], m, now)
  {
    hide Ends, Stops, Quiet, Names, TameMap, AllStop;
    forall n | n in m && (m[n] == "" || n in Names(m[key]))
      ensures now[n] == m[n]
    {
      EntryStays(now, m, todo, key, n);
    }
  }

  lemma EntryStays(now: VarMap, m: VarMap, todo: set<string>, key: string, n: string)
    requires TameMap(m) && AllStop(m, m) && PartlyResolved(now, m, OutcomeAll(m, m), todo) && key in m
    requires n in m && (m[n] == "" || n in Names(m[key]))
    ensures now[n] == m[n]
  {
    hide Names, Ends, Flat;
    if m[n] != "" {
      assert Quiet(Lookup(m, n), m);
    }
    QuietStays(m[n], m);
  }

  lemma SameEnd(s: string, e1: Env, e2: Env)
    requires Stops(s, e1) && Tame(s, e1) && Agree(s, e1, e2)
    ensures Ends(s, 0, e2, Finished(Outcome(s, e1)))
  {
    var n: nat :| After(n, s, 0, e1) == Finished(Outcome(s, e1));
    SameRun(n, s, 0, e1, e2);
  }

  lemma QuietStays(v: string, env: Env)
    requires Settled(v, env) && Stops(v, env)
    ensures Outcome(v, env) == v
  {
    assert v + "" == v;
    Dormant(v, "", env);
    Idle(v, 0, env);
    OneOutcome(v, env, if EndsInDollar(v) then Panicked else Finished(v));
  }

  class Variables {
    var vars: VarMap

    /** NewVariables. */
    constructor ()
      ensures vars == map["_TYPE_" := "_string_"]
    {
      vars := DEFAULT_VARS;
    }

    /**
     First against the system environment, then against the map itself while it changes. The
     outcome is that of resolving every entry against one fixed map, in whatever order the
     map is iterated. The first pass needs no more than that the loop stops.
     */
    method Resolve(system: Env)
      requires AllStop(vars, system) && OrderFree(OutcomeAll(vars, system))
      modifies this
      ensures var m := OutcomeAll(old(vars), system); AllStop(m, m) && vars == OutcomeAll(m, m)
      ensures vars.Keys == old(vars.Keys)
    {
      hide OrderFree, Stops;
      ghost var m0 := vars;
      ghost var m := OutcomeAll(m0, system);
      var todo := vars.Keys;
      while todo != {}
        invariant PartlyResolved(vars, m0, m, todo)
        decreases todo
      {
        var key :| key in todo;
        var val := ParseResolvable(vars[key], system);
        OneMore(vars, m0, m, todo, key);
        vars := vars[key := val];
        todo := todo - {key};
      }

      assert vars == m;
      OrderFreeStops(m);
      ghost var r := OutcomeAll(m, m);
      todo := vars.Keys;
      while todo != {}
        invariant PartlyResolved(vars, m, r, todo)
        decreases todo
      {
        var key :| key in todo;
        StillTheSame(vars, m, todo, key);
        var val := ParseResolvable(vars[key], vars);
        OneMore(vars, m, r, todo, key);
        vars := vars[key := val];
        todo := todo - {key};
      }
    }

    /** The entries as `key=value`, in some order of the keys. */
    method ToStringArray() returns (entries: array<string>, ghost order: seq<string>)
      ensures Ordering(order, vars) && entries[..] == Entries(order, vars)
      ensures fresh(entries)
    {
      entries := new string[|vars|];
      order := [];
      var todo := vars.Keys;
      var index := 0;
      while todo != {}
        invariant todo <= vars.Keys && index + |todo| == |vars| && |order| == index
        invariant forall k :: k in vars.Keys <==> k in order || k in todo
        invariant forall k :: k in order ==> k in vars && k !in todo
        invariant forall i, j :: 0 <= i < j < |order| ==> order[i] != order[j]
        invariant entries.Length == |vars| && fresh(entries)
        invariant forall i :: 0 <= i < index ==> entries[i] == Entry(order[i], vars)
        decreases todo
      {
        var key :| key in todo;
        entries[index] := key + "=" + vars[key];
        order := order + [key];
        todo := todo - {key};
        index := index + 1;
      }
    }
  }

  /** A listing of all keys, each once. */
  ghost predicate Ordering(order: seq<string>, m: VarMap) {
    && (forall k :: k in order <==> k in m)
    && (forall i, j :: 0 <= i < j < |order| ==> order[i] != order[j])
  }

  function Entry(k: string, m: VarMap): string
    requires k in m
  {
    k + "=" + m[k]
  }

  function Entries(order: seq<string>, m: VarMap): (r: seq<string>)
    requires forall k :: k in order ==> k in m
    ensures |r| == |order| && forall i :: 0 <= i < |r| ==> r[i] == Entry(order[i], m)
  {
    if order == [] then [] else [Entry(order[0], m)] + Entries(order[1..], m)
  }

  /** ConnectVars: the second map wins; a nil map counts as empty. */
  method ConnectVars(a: VarMap, b: VarMap) returns (vars: VarMap)
    ensures vars == a + b
  {
    vars := map[];
    var todo := a.Keys;
    while todo != {}
      invariant todo <= a.Keys && vars.Keys == a.Keys - todo
      invariant forall k :: k in vars ==> vars[k] == a[k]
      decreases todo
    {
      var k :| k in todo;
      vars := vars[k := a[k]];
      todo := todo - {k};
    }
    todo := b.Keys;
    while todo != {}
      invariant todo <= b.Keys && vars.Keys == a.Keys + (b.Keys - todo)
      invariant forall k :: k in vars ==> vars[k] == if k in b && k !in todo then b[k] else a[k]
      decreases todo
    {
      var k :| k in todo;
      vars := vars[k := b[k]];
      todo := todo - {k};
    }
  }

  /**
   Why tokens may not start early in referenced values: with a = "${b}", b = "${c}w" the
   outcome for `a` depends on whether `a` or `b` is resolved first.
   */
  lemma OrderMatters(a: string, b: string, c: string, w: string, v: string, m: VarMap)
    requires PlainName(a) && PlainName(b) && PlainName(c) && a != b && b != c && a != c
    requires '$' !in w && '$' !in v && v != ""
    requires m == map[a := Token(b), b := Token(c) + w, c := v]
    ensures Ends(m[a], 0, m, Finished(Token(c) + w))
    ensures Ends(m[b], 0, m, Finished(v + w))
    ensures Ends(m[a], 0, m[b := v + w], Finished(v + w))
    ensures Token(c) + w != v + w
  {
    hide Pass, After, Ends, Subst, ReplaceAll, Flat, Opens;
    OneToken(b, "", Token(c) + w, m);
    OneToken(c, w, v, m);
    OneToken(b, "", v + w, m[b := v + w]);
    assert Token(b) + "" == Token(b) && Token(c) + w + "" == Token(c) + w && v + w + "" == v + w;
    assert (Token(c) + w)[0] == '$' && (v + w)[0] == v[0];
  }

  /**
   Exactly when a chain of three is safe: with a = "${b}", b = u"${c}"w, the inner token must
   stand where the jump over the outer one lands, or later.
   */
  lemma ChainOrderExact(a: string, b: string, c: string, u: string, w: string, v: string, m: VarMap)
    requires PlainName(a) && PlainName(b) && PlainName(c) && a != b && b != c && a != c
    requires '$' !in u && '$' !in w && '$' !in v && v != ""
    requires m == map[a := Token(b), b := u + (Token(c) + w), c := v]
    ensures Ends(m[b], 0, m, Finished(u + (v + w)))
    ensures Ends(m[a], 0, m[b := u + (v + w)], Finished(u + (v + w)))
    ensures Ends(m[a], 0, m, Finished(if |u| >= |Token(b)| then u + (v + w) else m[b]))
    ensures Ends(m[a], 0, m, Finished(u + (v + w))) <==> |u| >= |Token(b)|
  {
    var val, out := u + (Token(c) + w), u + (v + w);
    assert Token(b) + "" == Token(b) && val + "" == val && out + "" == out;
    assert out != val by { assert val[|u|] == '$'; }
    hide Pass, After, Ends, Subst, ReplaceAll, Flat, Opens;
    TokenInside(u, c, w, v, m);
    OneToken(b, "", out, m[b := out]);
    if |u| >= |Token(b)| {
      PassTokenOnly(b, m);
      TokenInsideFrom(u, c, w, v, |Token(b)|, m);
      EndsAfterPass(Token(b), 0, m, val, |Token(b)|, Finished(out));
    } else {
      OneToken(b, "", val, m);
      if Ends(m[a], 0, m, Finished(out)) {
        OneEnd(m[a], 0, m, Finished(val), Finished(out));
      }
    }
  }

  lemma TokenInside(u: string, n: string, w: string, v: string, env: Env)
    requires PlainName(n) && '$' !in u && '$' !in w && '$' !in v && Defined(env, n) && Lookup(env, n) == v
    ensures Ends(u + (Token(n) + w), 0, env, Finished(u + (v + w)))
  {
    TokenInsideFrom(u, n, w, v, 0, env);
  }

  lemma TokenInsideFrom(u: string, n: string, w: string, v: string, from: nat, env: Env)
    requires PlainName(n) && '$' !in u && '$' !in w && '$' !in v && Defined(env, n) && Lookup(env, n) == v
    requires from <= |u|
    ensures Ends(u + (Token(n) + w), from, env, Finished(u + (v + w)))
  {
    var s, out := u + (Token(n) + w), u + (v + w);
    TokenThenText(n, w, v, env);
    assert '$' !in out && forall k :: 0 <= k < |u| ==> s[k] != '$';
    hide Pass, Ends, ReplaceAll, Token, Flat;
    PassAt(u, n, w, env);
    Idle(out, |u| + |Token(n)|, env);
    EndsAfterPass(s, |u|, env, out, |u| + |Token(n)|, Finished(out));
    EndsSkip(s, from, |u|, env, Finished(out));
  }

  /** A token and `$`-free text: the value replaces the token, and its front is not looked at again. */
  lemma OneToken(n: string, w: string, v: string, env: Env)
    requires PlainName(n) && '$' !in w && Defined(env, n) && Lookup(env, n) == v
    requires forall k :: |Token(n)| <= k < |v| ==> v[k] != '$'
    ensures Ends(Token(n) + w, 0, env, Finished(v + w))
  {
    TokenThenText(n, w, v, env);
    PassFirst(n, w, env);
    Tail(v, w, |Token(n)|);
    hide Pass, Flat, ReplaceAll, EndsInDollar, Token, Opens;
    Idle(v + w, |Token(n)|, env);
    EndsAfterPass(Token(n) + w, 0, env, v + w, |Token(n)|, Finished(v + w));
  }

  lemma Tail(v: string, w: string, j: nat)
    requires '$' !in w && forall k :: j <= k < |v| ==> v[k] != '$'
    ensures forall k :: j <= k < |v + w| ==> !Opens(v + w, k)
    ensures j < |v + w| ==> !EndsInDollar(v + w)
  {
  }

  lemma TokenThenText(n: string, w: string, v: string, env: Env)
    requires PlainName(n) && '$' !in w
    ensures Flat(Token(n) + w) && ReplaceAll(w, Token(n), v) == w
  {
    InertFront(w, "", env);
    assert w + "" == w;
    TokenFront(n, w, env);
    ReplaceBehind(w, "", Token(n), v);
  }
}
