/**
 ACL verdicts: the rule scan, the order Refresh puts the rules in, and the whole check.
 */
module Acl {
  import opened Topics
  import opened AclPatterns
  import opened Wrappers

  datatype User = User(username: string, enabled: bool, isAdmin: bool, canPublish: bool, canSubscribe: bool)

  datatype Rule = Rule(username: string, pattern: string, canSubscribe: bool, canPublish: bool, priority: int)

  datatype Request = Request(username: string, clientID: string, topic: string, write: bool)

  /** strings.Contains for the two characters '%', c. */
  predicate HasToken(s: string, c: char) { exists i :: 0 <= i < |s| - 1 && s[i] == '%' && s[i + 1] == c }

  /** strings.ReplaceAll for the two characters '%', c. */
  function Replace(s: string, c: char, value: string): string {
    if |s| < 2 then s
    else if s[0] == '%' && s[1] == c then value + Replace(s[2..], c, value)
    else [s[0]] + Replace(s[1..], c, value)
  }

  function ResolvePattern(pattern: string, username: string, clientID: string): Option<string> {
    if '%' !in pattern then Some(pattern)
    else
      var resolved := Replace(pattern, 'u', username);
      if !HasToken(resolved, 'c') then Some(resolved)
      else if clientID == "" then None
      else Some(Replace(resolved, 'c', clientID))
  }

  predicate IsDeny(r: Rule) { !r.canPublish && !r.canSubscribe }

  /** The rule says something about the operation, and its pattern covers the topic. */
  predicate Applies(r: Rule, q: Request) {
    && (IsDeny(r) || (if q.write then r.canPublish else r.canSubscribe))
    && var pattern := ResolvePattern(r.pattern, q.username, q.clientID);
       pattern.Some? && TopicMatches(pattern.value, q.topic)
  }

  /** The loop of allowClient: the first rule that applies decides. */
  predicate Scan(rules: seq<Rule>, q: Request) {
    rules != [] && (if Applies(rules[0], q) then !IsDeny(rules[0]) else Scan(rules[1..], q))
  }

  /** Refresh's order: higher priority first, deny rules first among equals. */
  predicate Before(a: Rule, b: Rule) {
    if a.priority != b.priority then a.priority > b.priority else IsDeny(a) && !IsDeny(b)
  }

  ghost predicate Sorted(rules: seq<Rule>) { forall i, j :: 0 <= i < j < |rules| ==> !Before(rules[j], rules[i]) }

  /** Puts r behind everything it does not come before, as a stable sort does. */
  function Insert(r: Rule, rules: seq<Rule>): seq<Rule> {
    if rules == [] || Before(r, rules[0]) then [r] + rules else [rules[0]] + Insert(r, rules[1..])
  }

  /** sort.SliceStable by Before. */
  function StableSort(rules: seq<Rule>): seq<Rule> {
    if rules == [] then [] else Insert(rules[|rules| - 1], StableSort(rules[..|rules| - 1]))
  }

  /** Nothing in the list comes before x. */
  ghost predicate NoneBefore(rules: seq<Rule>, x: Rule) { forall j :: 0 <= j < |rules| ==> !Before(rules[j], x) }

  lemma SortedCons(x: Rule, rules: seq<Rule>)
    requires Sorted(rules) && NoneBefore(rules, x)
    ensures Sorted([x] + rules)
  {
  }

  lemma {:induction false} InsertKeepsFirst(r: Rule, rules: seq<Rule>, x: Rule)
    requires NoneBefore(rules, x) && !Before(r, x)
    ensures NoneBefore(Insert(r, rules), x)
  {
    if rules != [] && !Before(r, rules[0]) {
      InsertKeepsFirst(r, rules[1..], x);
    }
  }

  lemma {:induction false} InsertSorts(r: Rule, rules: seq<Rule>)
    requires Sorted(rules)
    ensures Sorted(Insert(r, rules)) && multiset(Insert(r, rules)) == multiset(rules) + multiset{r}
  {
    if rules == [] || Before(r, rules[0]) {
      SortedCons(r, rules);
    } else {
      InsertSorts(r, rules[1..]);
      assert rules == [rules[0]] + rules[1..];
      InsertKeepsFirst(r, rules[1..], rules[0]);
      SortedCons(rules[0], Insert(r, rules[1..]));
    }
  }

  lemma {:induction false} SortSorts(rules: seq<Rule>)
    ensures Sorted(StableSort(rules)) && multiset(StableSort(rules)) == multiset(rules)
  {
    if rules != [] {
      var init := rules[..|rules| - 1];
      SortSorts(init);
      InsertSorts(rules[|rules| - 1], StableSort(init));
      assert rules == init + [rules[|rules| - 1]];
    }
  }

  /** Some rule applies, and no applying deny rule has the top priority among those that apply. */
  ghost predicate Granted(rules: multiset<Rule>, q: Request) {
    && (exists r :: r in rules && Applies(r, q))
    && (forall d :: d in rules && Applies(d, q) && IsDeny(d) ==> exists r :: r in rules && Applies(r, q) && r.priority > d.priority)
  }

  lemma FirstIsTop(rules: seq<Rule>, r: Rule)
    requires Sorted(rules) && rules != [] && r in multiset(rules)
    ensures r == rules[0] || !Before(r, rules[0])
  {
    var k :| 0 <= k < |rules| && rules[k] == r;
  }

  lemma FirstDecides(rules: seq<Rule>, q: Request)
    requires Sorted(rules) && rules != [] && Applies(rules[0], q)
    ensures Granted(multiset(rules), q) <==> !IsDeny(rules[0])
  {
    assert rules[0] in multiset(rules);
    forall r | r in multiset(rules) ensures r == rules[0] || !Before(r, rules[0]) { FirstIsTop(rules, r); }
  }

  lemma SkipFirst(rules: seq<Rule>, q: Request)
    requires rules != [] && !Applies(rules[0], q)
    ensures Granted(multiset(rules), q) <==> Granted(multiset(rules[1..]), q)
  {
    assert rules == [rules[0]] + rules[1..];
    assert forall r :: Applies(r, q) ==> (r in multiset(rules) <==> r in multiset(rules[1..]));
  }

  lemma {:induction false} ScanIsGranted(rules: seq<Rule>, q: Request)
    requires Sorted(rules)
    ensures Scan(rules, q) <==> Granted(multiset(rules), q)
  {
    if rules != [] {
      if Applies(rules[0], q) {
        FirstDecides(rules, q);
      } else {
        ScanIsGranted(rules[1..], q);
        SkipFirst(rules, q);
      }
    }
  }

  /**
   After Refresh the scan grants exactly when some rule applies and none that denies sits at
   the top applying priority, whatever order the store returned the rules in.
   */
  lemma VerdictOfRules(rules: seq<Rule>, q: Request)
    ensures Scan(StableSort(rules), q) <==> Granted(multiset(rules), q)
  {
    SortSorts(rules);
    ScanIsGranted(StableSort(rules), q);
  }

  /** So the verdict depends on the rules a user has, not on their order. */
  lemma OrderIrrelevant(a: seq<Rule>, b: seq<Rule>, q: Request)
    requires multiset(a) == multiset(b)
    ensures Scan(StableSort(a), q) == Scan(StableSort(b), q)
  {
    VerdictOfRules(a, q);
    VerdictOfRules(b, q);
  }

  const ANONYMOUS := "Anonymous"

  /** Settings fixed at start. */
  datatype Settings = Settings(anonymousAllow: bool, aclCheckOnSubscribe: bool)

  /** What Refresh replaces. */
  datatype Tables = Tables(users: map<string, User>, rules: map<string, seq<Rule>>)

  /** The alias mapping; None is no mapping installed. */
  type Canonical = Option<string -> Option<string>>

  /**
   allowClient. It takes the lock anew for each lookup, so each may see other tables: the two
   looks for the anonymous user, the user, and the rules.
   */
  predicate AllowFrom(s: Settings, anon1: Tables, anon2: Tables, user: Tables, rules: Tables, q: Request) {
    if q.username == "" then
      var enabled := s.anonymousAllow && (ANONYMOUS in anon1.users ==> anon1.users[ANONYMOUS].enabled);
      enabled && (ANONYMOUS in anon2.users ==> AllowUser(s, user, rules, q.(username := ANONYMOUS)))
    else AllowUser(s, user, rules, q)
  }

  predicate AllowUser(s: Settings, user: Tables, rules: Tables, q: Request) {
    if q.username !in user.users || !user.users[q.username].enabled then false
    else
      var u := user.users[q.username];
      if u.isAdmin then true
      else if q.write && !u.canPublish then false
      else if !q.write && !u.canSubscribe then false
      else if !q.write && !s.aclCheckOnSubscribe && IsWildcardFilter(q.topic) then true
      else
        var list := if q.username in rules.rules then rules.rules[q.username] else [];
        list == [] || Scan(list, q)
  }

  const LOOKUPS := 8

  /** AllowClient: the topic, and its canonical form if it has another one, from eight lookups. */
  predicate VerdictFrom(s: Settings, seen: seq<Tables>, canonical: Canonical, q: Request)
    requires |seen| == LOOKUPS
  {
    AllowFrom(s, seen[0], seen[1], seen[2], seen[3], q) &&
    (canonical.Some? && canonical.value(q.topic).Some? && canonical.value(q.topic).value != q.topic ==>
       AllowFrom(s, seen[4], seen[5], seen[6], seen[7], q.(topic := canonical.value(q.topic).value)))
  }

  /** The verdict of one state of the tables. */
  predicate Verdict(s: Settings, t: Tables, canonical: Canonical, q: Request) {
    VerdictFrom(s, seq(LOOKUPS, i => t), canonical, q)
  }

  /** Refresh groups the rules by user, keeping the store's order. */
  function RulesOf(rules: seq<Rule>, user: string): seq<Rule> {
    if rules == [] then []
    else RulesOf(rules[..|rules| - 1], user) + (if rules[|rules| - 1].username == user then [rules[|rules| - 1]] else [])
  }
}
