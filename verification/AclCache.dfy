/**
 The ACL cache object, and its decision memo under concurrent refreshes.
 */
module AclCache {
  import opened Acl
  import opened Wrappers

  const MAX_DECISIONS := 0x1_0000
  const MAX_KEY_LEN := 256

  /** len of a Go string: the bytes of its UTF-8 form. */
  function Bytes(s: string): nat {
    if s == "" then 0
    else
      var c := s[0] as int;
      (if c < 0x80 then 1 else if c < 0x800 then 2 else if c < 0x1_0000 then 3 else 4) + Bytes(s[1..])
  }

  predicate Memoizable(q: Request) { Bytes(q.topic) + Bytes(q.clientID) + Bytes(q.username) <= MAX_KEY_LEN }

  /** Storing a decision; a full memo starts over. */
  function Remember(memo: map<Request, bool>, q: Request, ok: bool): map<Request, bool> {
    if |memo| >= MAX_DECISIONS then map[q := ok] else memo[q := ok]
  }

  lemma RememberBounded(memo: map<Request, bool>, q: Request, ok: bool)
    requires |memo| <= MAX_DECISIONS
    ensures |Remember(memo, q, ok)| <= MAX_DECISIONS
    ensures forall k :: k in Remember(memo, q, ok) ==> k == q || (k in memo && Remember(memo, q, ok)[k] == memo[k])
    ensures q in Remember(memo, q, ok) && Remember(memo, q, ok)[q] == ok
  {
    if |memo| < MAX_DECISIONS { assert memo[q := ok].Keys == memo.Keys + {q}; }
  }

  function UserTable(users: seq<User>): map<string, User> {
    if users == [] then map[] else UserTable(users[..|users| - 1])[users[|users| - 1].username := users[|users| - 1]]
  }

  method GroupRules(rules: seq<Rule>) returns (m: map<string, seq<Rule>>)
    ensures forall u :: u in m <==> RulesOf(rules, u) != []
    ensures forall u :: u in m ==> m[u] == RulesOf(rules, u)
  {
    m := map[];
    for i := 0 to |rules|
      invariant forall u :: u in m <==> RulesOf(rules[..i], u) != []
      invariant forall u :: u in m ==> m[u] == RulesOf(rules[..i], u)
    {
      assert rules[..i + 1][..i] == rules[..i];
      var u := rules[i].username;
      m := m[u := (if u in m then m[u] else []) + [rules[i]]];
    }
    assert rules[..|rules|] == rules;
  }

  method SortGroups(groups: map<string, seq<Rule>>) returns (m: map<string, seq<Rule>>)
    ensures m == map u | u in groups :: StableSort(groups[u])
  {
    m := groups;
    var left := groups.Keys;
    while left != {}
      invariant left <= groups.Keys == m.Keys
      invariant forall u :: u in groups ==> m[u] == if u in left then groups[u] else StableSort(groups[u])
      decreases left
    {
      var u :| u in left;
      m := m[u := StableSort(groups[u])];
      left := left - {u};
    }
  }

  class Cache {
    const settings: Settings
    var users: map<string, User>
    var rulesByUser: map<string, seq<Rule>>
    var decisions: map<Request, bool>
    var decisionsGen: nat
    var canonical: Canonical

    ghost function Current(): Tables
      reads this
    {
      Tables(users, rulesByUser)
    }

    ghost predicate Valid()
      reads this
    {
      && |decisions| <= MAX_DECISIONS
      && forall q :: q in decisions ==> decisions[q] == Verdict(settings, Current(), canonical, q)
    }

    constructor (settings: Settings)
      ensures Valid() && this.settings == settings && decisions == map[]
    {
      this.settings := settings;
      users, rulesByUser, decisions, decisionsGen, canonical := map[], map[], map[], 0, None;
    }

    /** Loads users and rules; the store may fail, and then nothing changes. */
    method Refresh(loaded: Option<(seq<User>, seq<Rule>)>) returns (err: bool)
      modifies this`users, this`rulesByUser, this`decisions, this`decisionsGen
      ensures err == loaded.None?
      ensures err ==> unchanged(this)
      ensures !err ==> Valid() && decisions == map[] && decisionsGen == old(decisionsGen) + 1
      ensures !err ==> users == UserTable(loaded.value.0)
      ensures !err ==> forall u :: u in rulesByUser <==> RulesOf(loaded.value.1, u) != []
      ensures !err ==> forall u, q :: u in rulesByUser ==> (Scan(rulesByUser[u], q) <==> Granted(multiset(RulesOf(loaded.value.1, u)), q))
    {
      if loaded.None? {
        return true;
      }
      var (us, rules) := loaded.value;
      var groups := GroupRules(rules);
      var sorted := SortGroups(groups);
      decisions := map[];
      decisionsGen := decisionsGen + 1;
      users := UserTable(us);
      rulesByUser := sorted;
      forall u, q | u in rulesByUser ensures Scan(rulesByUser[u], q) <==> Granted(multiset(RulesOf(rules, u)), q) {
        VerdictOfRules(RulesOf(rules, u), q);
      }
      return false;
    }

    method SetCanonical(f: Canonical)
      modifies this`canonical, this`decisions, this`decisionsGen
      ensures Valid() && canonical == f && decisions == map[] && decisionsGen == old(decisionsGen) + 1
    {
      canonical, decisions, decisionsGen := f, map[], decisionsGen + 1;
    }

    /** A check on its own: the answer is the verdict of the tables, memoised or not. */
    method AllowClient(q: Request) returns (ok: bool)
      requires Valid()
      modifies this`decisions
      ensures Valid() && ok == Verdict(settings, Current(), canonical, q)
    {
      if q in decisions {
        return decisions[q];
      }
      var t := Tables(users, rulesByUser);
      ok := AllowFrom(settings, t, t, t, t, q);
      if ok && canonical.Some? {
        var ct := canonical.value(q.topic);
        if ct.Some? && ct.value != q.topic {
          ok := AllowFrom(settings, t, t, t, t, q.(topic := ct.value));
        }
      }
      if Memoizable(q) {
        RememberBounded(decisions, q, ok);
        decisions := Remember(decisions, q, ok);
      }
    }
  }
}

/**
 Many checks at once: every lookup of a check is its own lock section, and refreshes and
 alias changes may fall between any two of them.
 */
module AclMemo {
  import opened Acl
  import opened AclCache

  /** A check in flight: the generation and mapping it started with and the tables its lookups have seen. */
  datatype Check = Check(q: Request, gen: nat, canonical: Canonical, seen: seq<Tables>)

  datatype State = State(tables: Tables, canonical: Canonical, gen: nat, memo: map<Request, bool>, checks: map<nat, Check>)

  datatype Step =
    | Refresh(tables: Tables)
    | SetCanonical(f: Canonical)
    | Begin(id: nat, q: Request)
    | Look(id: nat)
    | Finish(id: nat)

  predicate Enabled(s: State, step: Step) {
    match step
    case Begin(id, q) => id !in s.checks && q !in s.memo
    case Look(id) => id in s.checks && |s.checks[id].seen| < LOOKUPS
    case Finish(id) => id in s.checks && |s.checks[id].seen| == LOOKUPS
    case _ => true
  }

  function Next(settings: Settings, s: State, step: Step): State
    requires Enabled(s, step)
  {
    match step
    case Refresh(t) => s.(tables := t, memo := map[], gen := s.gen + 1)
    case SetCanonical(f) => s.(canonical := f, memo := map[], gen := s.gen + 1)
    case Begin(id, q) => s.(checks := s.checks[id := Check(q, s.gen, s.canonical, [])])
    case Look(id) => s.(checks := s.checks[id := s.checks[id].(seen := s.checks[id].seen + [s.tables])])
    case Finish(id) =>
      var c := s.checks[id];
      var ok := VerdictFrom(settings, c.seen, c.canonical, c.q);
      s.(checks := s.checks - {id},
         memo := if s.gen == c.gen && Memoizable(c.q) then Remember(s.memo, c.q, ok) else s.memo)
  }

  /** A check of the current generation has seen only the current tables. */
  ghost predicate CheckOk(s: State, c: Check) {
    c.gen <= s.gen && |c.seen| <= LOOKUPS &&
    (c.gen == s.gen ==> c.canonical == s.canonical && forall i :: 0 <= i < |c.seen| ==> c.seen[i] == s.tables)
  }

  ghost predicate Inv(settings: Settings, s: State) {
    && |s.memo| <= MAX_DECISIONS
    && (forall q :: q in s.memo ==> s.memo[q] == Verdict(settings, s.tables, s.canonical, q))
    && (forall id :: id in s.checks ==> CheckOk(s, s.checks[id]))
  }

  lemma SameLookups(settings: Settings, s: State, c: Check)
    requires CheckOk(s, c) && c.gen == s.gen && |c.seen| == LOOKUPS
    ensures VerdictFrom(settings, c.seen, c.canonical, c.q) == Verdict(settings, s.tables, s.canonical, c.q)
  {
    assert c.seen == seq(LOOKUPS, i => s.tables);
  }

  lemma StepKeeps(settings: Settings, s: State, step: Step)
    requires Inv(settings, s) && Enabled(s, step)
    ensures Inv(settings, Next(settings, s, step))
  {
    match step
    case Finish(id) =>
      var c := s.checks[id];
      if s.gen == c.gen && Memoizable(c.q) {
        SameLookups(settings, s, c);
        RememberBounded(s.memo, c.q, VerdictFrom(settings, c.seen, c.canonical, c.q));
      }
    case _ =>
  }

  ghost predicate IsRun(settings: Settings, states: seq<State>, steps: seq<Step>) {
    && |states| == |steps| + 1 && states[0].memo == map[] && states[0].checks == map[]
    && forall k :: 0 <= k < |steps| ==> Enabled(states[k], steps[k]) && states[k + 1] == Next(settings, states[k], steps[k])
  }

  /**
   The memo never goes stale: in every interleaving every stored decision is the verdict of
   the current users, rules and alias mapping, and the memo stays bounded.
   */
  lemma {:induction false} MemoNeverStale(settings: Settings, states: seq<State>, steps: seq<Step>, k: nat)
    requires IsRun(settings, states, steps) && k < |states|
    ensures var s := states[k];
      && (forall q :: q in s.memo ==> s.memo[q] == Verdict(settings, s.tables, s.canonical, q))
      && |s.memo| <= MAX_DECISIONS
    ensures Inv(settings, states[k])
  {
    if k > 0 {
      MemoNeverStale(settings, states, steps, k - 1);
      StepKeeps(settings, states[k - 1], steps[k - 1]);
    }
  }
}
