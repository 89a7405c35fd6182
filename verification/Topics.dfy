/**
 Topic levels and the matching rule of section 4.7 of MQTT 5.0.

 A topic is split at '/' into levels. `Matches` is the reference rule, stated over
 levels without recursion; every matcher of the broker is related to it in `Matchers`.
 A `#` that is not the last level is outside section 4.7; the matchers all stop at the
 first `#`, and so does the rule here.
 */
module Topics {

  /** Index of the first '/' in s, or |s| when there is none. */
  function FirstSlash(s: string): (i: nat)
    ensures i <= |s|
    ensures forall j :: 0 <= j < i ==> s[j] != '/'
    ensures i < |s| ==> s[i] == '/'
  {
    if s == "" || s[0] == '/' then 0 else 1 + FirstSlash(s[1..])
  }

  /** strings.Split(s, "/") */
  function Levels(s: string): (r: seq<string>)
    ensures |r| >= 1
    decreases |s|
  {
    var i := FirstSlash(s);
    if i == |s| then [s] else [s[..i]] + Levels(s[i + 1..])
  }

  function Join(levels: seq<string>): (s: string)
    requires |levels| >= 1
  {
    if |levels| == 1 then levels[0] else levels[0] + "/" + Join(levels[1..])
  }

  predicate NoSlash(level: string) { '/' !in level }

  lemma FirstSlashAt(head: string, rest: string)
    requires NoSlash(head)
    requires rest == "" || rest[0] == '/'
    ensures FirstSlash(head + rest) == |head|
  {
    assert forall j :: 0 <= j < |head| ==> (head + rest)[j] == head[j];
    assert rest != "" ==> (head + rest)[|head|] == rest[0];
  }

  /** Splitting undoes joining: level lists and strings correspond one to one. */
  lemma {:induction false} LevelsOfJoin(levels: seq<string>)
    requires |levels| >= 1
    requires forall i :: 0 <= i < |levels| ==> NoSlash(levels[i])
    ensures Levels(Join(levels)) == levels
  {
    if |levels| == 1 {
      FirstSlashAt(levels[0], "");
      assert levels[0] + "" == levels[0];
    } else {
      var tail := Join(levels[1..]);
      LevelsOfJoin(levels[1..]);
      FirstSlashAt(levels[0], "/" + tail);
      var s := levels[0] + "/" + tail;
      assert s == levels[0] + ("/" + tail);
      assert s[|levels[0]| + 1..] == tail;
      assert s[..|levels[0]|] == levels[0];
    }
  }

  lemma {:induction false} JoinOfLevels(s: string)
    ensures Join(Levels(s)) == s
    ensures forall i :: 0 <= i < |Levels(s)| ==> NoSlash(Levels(s)[i])
    decreases |s|
  {
    var i := FirstSlash(s);
    if i < |s| {
      JoinOfLevels(s[i + 1..]);
      assert Levels(s)[1..] == Levels(s[i + 1..]);
      assert s == s[..i] + "/" + s[i + 1..];
    }
  }

  /** Every character of a level is a character of the string. */
  lemma {:induction false} LevelChars(s: string, i: nat, c: char)
    requires i < |Levels(s)| && c in Levels(s)[i]
    ensures c in s
    decreases |s|
  {
    var k := FirstSlash(s);
    if k < |s| && i > 0 {
      LevelChars(s[k + 1..], i - 1, c);
    }
  }

  /** No wildcard character: what a publisher may use as a topic. */
  predicate Concrete(topic: string) { '+' !in topic && '#' !in topic }

  lemma ConcreteLevels(topic: string)
    requires Concrete(topic)
    ensures forall i :: 0 <= i < |Levels(topic)| ==> Levels(topic)[i] != "+" && Levels(topic)[i] != "#"
  {
    forall i | 0 <= i < |Levels(topic)|
      ensures Levels(topic)[i] != "+" && Levels(topic)[i] != "#"
    {
      if Levels(topic)[i] == "+" { LevelChars(topic, i, '+'); }
      if Levels(topic)[i] == "#" { LevelChars(topic, i, '#'); }
    }
  }

  predicate HasPrefixChar(s: string, c: char) { |s| > 0 && s[0] == c }

  lemma FirstLevelPrefix(s: string, c: char)
    requires c != '/'
    ensures HasPrefixChar(Levels(s)[0], c) <==> HasPrefixChar(s, c)
  {
  }

  /** Position of the first `#` level, or the number of levels. */
  function HashAt(f: seq<string>): (h: nat)
    ensures h <= |f|
    ensures h < |f| ==> f[h] == "#"
    ensures forall i :: 0 <= i < h ==> f[i] != "#"
  {
    if f == [] || f[0] == "#" then 0 else 1 + HashAt(f[1..])
  }

  predicate LevelMatches(f: string, t: string) { f == "+" || f == t }

  /** Section 4.7.1: level by level up to `#`, which stands for the parent and any number of child levels. */
  predicate LevelsMatch(f: seq<string>, t: seq<string>) {
    var h := HashAt(f);
    && (if h < |f| then h <= |t| else |f| == |t|)
    && forall i :: 0 <= i < h ==> LevelMatches(f[i], t[i])
  }

  /** Section 4.7.2: a filter starting with a wildcard does not match topics starting with '$'. */
  predicate DollarBlocked(filter: string, topic: string) {
    HasPrefixChar(topic, '$') && (Levels(filter)[0] == "+" || Levels(filter)[0] == "#")
  }

  predicate Matches(filter: string, topic: string) {
    LevelsMatch(Levels(filter), Levels(topic)) && !DollarBlocked(filter, topic)
  }

  /** The rule read off from left to right, one level at a time. */
  predicate ScanMatch(f: seq<string>, t: seq<string>) {
    if f == [] then t == []
    else if f[0] == "#" then true
    else t != [] && LevelMatches(f[0], t[0]) && ScanMatch(f[1..], t[1..])
  }

  lemma {:induction false} ScanIsLevelsMatch(f: seq<string>, t: seq<string>)
    ensures ScanMatch(f, t) <==> LevelsMatch(f, t)
  {
    if f != [] && f[0] != "#" && t != [] {
      ScanIsLevelsMatch(f[1..], t[1..]);
      var h := HashAt(f);
      assert HashAt(f[1..]) == h - 1;
      if LevelsMatch(f, t) {
        forall i | 0 <= i < h - 1 ensures LevelMatches(f[1..][i], t[1..][i]) {
          assert LevelMatches(f[i + 1], t[i + 1]);
        }
      }
      if ScanMatch(f, t) {
        forall i | 0 <= i < h ensures LevelMatches(f[i], t[i]) {
          if i > 0 { assert LevelMatches(f[1..][i - 1], t[1..][i - 1]); }
        }
      }
    }
  }

  lemma {:induction false} ScanSame(f: seq<string>)
    ensures ScanMatch(f, f)
  {
    if f != [] { ScanSame(f[1..]); }
  }

  predicate IsWildcardFilter(filter: string) { '+' in filter || '#' in filter }

  /** A filter without wildcard characters matches exactly the topic it spells. */
  lemma ExactFilterMatches(filter: string, topic: string)
    requires !IsWildcardFilter(filter)
    ensures Matches(filter, topic) <==> filter == topic
  {
    ConcreteLevels(filter);
    if Matches(filter, topic) {
      assert Levels(filter) == Levels(topic);
      JoinOfLevels(filter);
      JoinOfLevels(topic);
    }
  }

  /** Wildcards fill whole levels and `#` comes last: the filters SUBSCRIBE accepts. */
  predicate WellFormed(f: seq<string>) {
    forall i :: 0 <= i < |f| ==>
      if '#' in f[i] then f[i] == "#" && i == |f| - 1 else ('+' in f[i] ==> f[i] == "+")
  }

  function Lower(c: char): char { if 'A' <= c <= 'Z' then (c as int + 32) as char else c }

  /** Simple case folding to a small letter: besides the capital only the long s folds to one in use here. */
  predicate Folds(c: char, small: char) { Lower(c) == small || (c == '\U{017F}' && small == 's') }

  /** strings.EqualFold of the first level with "$SHARE". */
  predicate IsShared(filter: string) {
    var prefix := Levels(filter)[0];
    |prefix| == 6 && forall i :: 0 <= i < 6 ==> Folds(prefix[i], "$share"[i])
  }
}
