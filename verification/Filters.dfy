/** A filter is a list of patterns; a pattern is what PCRE makes of it, a function of the text. */
module Filters {
  import opened Options
  import opened Messages

  // `Hit(ip)` carries the named group IP, if the pattern has one that took part in the match.
  datatype Match = Miss | Hit(ip: Option<string>)

  type Pattern = string -> Match

  datatype Filter = Filter(patterns: seq<Pattern>)

  const NO_GROUP := Process("")

  datatype MatchResult = MatchResult(ip: string, groupId: Process, error: bool)

  /** `checkMessage` and what it leaves in `*matchIdx`. */
  datatype Checked = Checked(result: Option<MatchResult>, matchIdx: nat)

  function Hits(f: Filter, m: Message, i: nat): bool
    requires i < |f.patterns|
  {
    f.patterns[i](m.text).Hit?
  }

  /** The IP pattern `i` gives the message: the captured one, or else the message's own. */
  function IpBy(f: Filter, m: Message, i: nat): string
    requires i < |f.patterns| && Hits(f, m, i)
  {
    f.patterns[i](m.text).ip.UnwrapOr(m.ip)
  }

  function Check(f: Filter, m: Message, from: nat): Checked
    decreases |f.patterns| - from
  {
    CheckAt(f, m, from, from)
  }

  function CheckAt(f: Filter, m: Message, from: nat, i: nat): Checked
    decreases |f.patterns| - i
  {
    if i >= |f.patterns| then Checked(None, from)
    else if !Hits(f, m, i) then CheckAt(f, m, from, i + 1)
    else if IpBy(f, m, i) == "" then Checked(Some(MatchResult("", m.process, true)), from)
    else Checked(Some(MatchResult(IpBy(f, m, i), NO_GROUP, false)), i)
  }

  /** How a pattern takes a message: not at all, with an IP, or without one. */
  datatype Kind = Missed | WithIp | Ipless

  function Kinds(f: Filter, m: Message): (r: seq<Kind>)
    ensures |r| == |f.patterns|
    ensures forall i :: 0 <= i < |r| ==> r[i] == KindOf(f, m, i)
  {
    seq(|f.patterns|, i requires 0 <= i < |f.patterns| => KindOf(f, m, i))
  }

  function KindOf(f: Filter, m: Message, i: nat): Kind
    requires i < |f.patterns|
  {
    if !Hits(f, m, i) then Missed else if IpBy(f, m, i) == "" then Ipless else WithIp
  }

  /** ... which the patterns and the message decide. */
  lemma KindsMean(f: Filter, m: Message, i: nat)
    requires i < |f.patterns|
    ensures Kinds(f, m)[i] ==
      match f.patterns[i](m.text)
      case Miss => Missed
      case Hit(None) => if m.ip == "" then Ipless else WithIp
      case Hit(Some(c)) => if c == "" then Ipless else WithIp
  {
  }

  /** The first match from `from` on; |ks| if there is none. */
  function FirstHit(ks: seq<Kind>, from: nat): (i: nat)
    requires from <= |ks|
    ensures from <= i <= |ks|
    ensures i < |ks| ==> !ks[i].Missed?
    ensures forall j :: from <= j < i ==> ks[j].Missed?
    decreases |ks| - from
  {
    if from == |ks| || !ks[from].Missed? then from else FirstHit(ks, from + 1)
  }

  /** `checkMessage` stops at the first matching pattern, even when that pattern yields no IP and a
      later one would; only a match with an IP moves the resume index. */
  lemma {:induction false} CheckedAtFirstHit(f: Filter, m: Message, from: nat, i: nat)
    requires from <= i <= |f.patterns|
    ensures var hit := FirstHit(Kinds(f, m), i);
      CheckAt(f, m, from, i)
      == if hit == |f.patterns| then Checked(None, from)
         else if Kinds(f, m)[hit].Ipless? then Checked(Some(MatchResult("", m.process, true)), from)
         else Checked(Some(MatchResult(IpBy(f, m, hit), NO_GROUP, false)), hit)
    decreases |f.patterns| - i
  {
    if i < |f.patterns| && !Hits(f, m, i) {
      CheckedAtFirstHit(f, m, from, i + 1);
    }
  }

  // ----- The answer, from the patterns alone -----

  /** What the patterns say of a text. */
  function Replies(f: Filter, text: string): (hs: seq<Match>)
    ensures |hs| == |f.patterns| && forall i :: 0 <= i < |hs| ==> hs[i] == f.patterns[i](text)
  {
    seq(|f.patterns|, i requires 0 <= i < |f.patterns| => f.patterns[i](text))
  }

  predicate FirstHitAt(hs: seq<Match>, from: nat, k: nat) {
    && from <= k < |hs| && hs[k].Hit?
    && forall j :: from <= j < k ==> hs[j] == Miss
  }

  predicate NoHit(hs: seq<Match>, from: nat) {
    forall j :: from <= j < |hs| ==> hs[j] == Miss
  }

  /** A captured IP goes before the message's own.  With neither, the answer is an error, and the index
      stays where the search began. */
  predicate AnswerAt(captured: Option<string>, m: Message, from: nat, k: nat, c: Checked) {
    if captured.Some? && captured.value != "" then c == Checked(Some(MatchResult(captured.value, NO_GROUP, false)), k)
    else if captured.None? && m.ip != "" then c == Checked(Some(MatchResult(m.ip, NO_GROUP, false)), k)
    else c == Checked(Some(MatchResult("", m.process, true)), from)
  }

  ghost predicate Answers(hs: seq<Match>, m: Message, from: nat, c: Checked) {
    && (forall k: nat :: FirstHitAt(hs, from, k) ==> AnswerAt(hs[k].ip, m, from, k, c))
    && (NoHit(hs, from) ==> c == Checked(None, from))
  }

  lemma OnlyFirstHit(hs: seq<Match>, from: nat, i: nat)
    requires FirstHitAt(hs, from, i)
    ensures !NoHit(hs, from) && forall k: nat :: FirstHitAt(hs, from, k) ==> k == i
  {
  }

  lemma {:induction false} CheckAnswers(f: Filter, m: Message, from: nat, i: nat)
    requires from <= i && forall j :: from <= j < i && j < |f.patterns| ==> Replies(f, m.text)[j] == Miss
    ensures Answers(Replies(f, m.text), m, from, CheckAt(f, m, from, i))
    decreases |f.patterns| - i
  {
    if i < |f.patterns| {
      if Hits(f, m, i) {
        OnlyFirstHit(Replies(f, m.text), from, i);
      } else {
        CheckAnswers(f, m, from, i + 1);
      }
    }
  }

  method CheckMessage(f: Filter, m: Message, from: nat) returns (result: Option<MatchResult>, matchIdx: nat)
    ensures Checked(result, matchIdx) == Check(f, m, from)
    ensures Answers(Replies(f, m.text), m, from, Checked(result, matchIdx))
  {
    CheckAnswers(f, m, from, from);
    matchIdx := from;
    var i := from;
    while i < |f.patterns|
      invariant from <= i && matchIdx == from
      invariant Check(f, m, from) == CheckAt(f, m, from, i)
    {
      var found := f.patterns[i](m.text);
      if found.Miss? {
        i := i + 1;
        continue;
      }
      var ip := found.ip.UnwrapOr(m.ip);
      if ip == "" {
        return Some(MatchResult("", m.process, true)), matchIdx;
      }
      matchIdx := i;
      return Some(MatchResult(ip, NO_GROUP, false)), matchIdx;
    }
    result := None;
  }

  // ----- The caller that resumes (the line tester) -----

  /** The pattern indices the tester prints, starting at `offset`. */
  function Printed(ks: seq<Kind>, offset: nat): seq<nat>
    requires offset <= |ks|
    decreases |ks| - offset
  {
    var hit := FirstHit(ks, offset);
    if hit == |ks| then []
    else
      var named := if ks[hit].Ipless? then offset else hit;
      [named] + Printed(ks, named + 1)
  }

  /** The indices of all patterns from `offset` on that match, ascending. */
  function Matching(ks: seq<Kind>, offset: nat): seq<nat>
    requires offset <= |ks|
    decreases |ks| - offset
  {
    if offset == |ks| then []
    else if ks[offset].Missed? then Matching(ks, offset + 1)
    else [offset] + Matching(ks, offset + 1)
  }

  lemma {:induction false} PrintedInRange(ks: seq<Kind>, offset: nat)
    requires offset <= |ks|
    ensures forall i :: 0 <= i < |Printed(ks, offset)| ==> Printed(ks, offset)[i] < |ks|
    decreases |ks| - offset
  {
    var hit := FirstHit(ks, offset);
    if hit < |ks| {
      PrintedInRange(ks, if ks[hit].Ipless? then offset + 1 else hit + 1);
    }
  }

  lemma PrintedNext(ks: seq<Kind>, offset: nat)
    requires offset <= |ks|
    ensures var hit, rest := FirstHit(ks, offset), Printed(ks, offset);
      if hit == |ks| then rest == []
      else
        var named := if ks[hit].Ipless? then offset else hit;
        rest != [] && rest[0] == named && rest[1..] == Printed(ks, named + 1)
  {
  }

  /** The tester's loop condition: is there another match, and where does it leave `offset`?  `rest`
      is what is still to be printed. */
  method Resume(f: Filter, m: Message, offset: nat, ghost ks: seq<Kind>, ghost rest: seq<nat>) returns (found: bool, at: nat)
    requires ks == Kinds(f, m) && offset <= |ks| && rest == Printed(ks, offset)
    ensures found == (rest != [])
    ensures found ==> at < |ks| && at == rest[0] && rest[1..] == Printed(ks, at + 1)
  {
    var c := Ask(f, m, offset);
    NextPrinted(f, m, offset, ks, rest, c);
    found, at := c.result.Some?, c.matchIdx;
  }

  method Ask(f: Filter, m: Message, from: nat) returns (c: Checked)
    ensures c == Check(f, m, from)
  {
    var result, matchIdx := CheckMessage(f, m, from);
    c := Checked(result, matchIdx);
  }

  lemma NextPrinted(f: Filter, m: Message, offset: nat, ks: seq<Kind>, rest: seq<nat>, c: Checked)
    requires ks == Kinds(f, m) && offset <= |ks| && rest == Printed(ks, offset) && c == Check(f, m, offset)
    ensures c.result.Some? == (rest != [])
    ensures c.result.Some? ==> c.matchIdx < |ks| && c.matchIdx == rest[0] && rest[1..] == Printed(ks, c.matchIdx + 1)
  {
    CheckedAtFirstHit(f, m, offset, offset);
    PrintedNext(ks, offset);
  }

  /** The tester's loop terminates, never leaves the pattern list, and prints `Printed`. */
  method TestFilter(f: Filter, m: Message) returns (printed: seq<nat>)
    ensures printed == Printed(Kinds(f, m), 0)
    ensures forall i :: 0 <= i < |printed| ==> printed[i] < |f.patterns|
  {
    ghost var ks := Kinds(f, m);
    ghost var rest := Printed(ks, 0);
    PrintedInRange(ks, 0);
    printed := [];
    var found: bool, offset: nat := Resume(f, m, 0, ks, rest);
    while found
      invariant printed + rest == Printed(ks, 0)
      invariant found == (rest != [])
      invariant found ==> offset < |ks| && offset == rest[0] && rest[1..] == Printed(ks, offset + 1)
      decreases |rest|
    {
      MoveHead(printed, rest);
      printed, rest := printed + [offset], rest[1..];
      found, offset := Resume(f, m, offset + 1, ks, rest);
    }
  }

  lemma MoveHead(done: seq<nat>, rest: seq<nat>)
    requires rest != []
    ensures (done + [rest[0]]) + rest[1..] == done + rest
  {
  }

  lemma {:induction false} MatchingFrom(ks: seq<Kind>, offset: nat)
    requires offset <= |ks|
    ensures var hit := FirstHit(ks, offset);
      Matching(ks, offset) == if hit == |ks| then [] else [hit] + Matching(ks, hit + 1)
    decreases |ks| - offset
  {
    if offset < |ks| && ks[offset].Missed? {
      MatchingFrom(ks, offset + 1);
    }
  }

  /** A match that yields no IP does not move the resume index, so the tester names the pattern it
      resumed from.  That is the right one only directly behind another matching pattern. */
  predicate NoGapBeforeIpless(ks: seq<Kind>, offset: nat) {
    forall i :: offset < i < |ks| && ks[i].Ipless? ==> !Before(ks, i).Missed?
  }

  function Before(ks: seq<Kind>, i: nat): Kind
    requires 0 < i <= |ks|
  {
    ks[i - 1]
  }

  /** The tester visits exactly the matching patterns, in order and once each, if and only if every
      match that yields no IP stands at the start or directly behind another match. */
  lemma PrintedIsMatching(ks: seq<Kind>, offset: nat)
    requires offset <= |ks|
    ensures Printed(ks, offset) == Matching(ks, offset) <==> NoGapBeforeIpless(ks, offset)
  {
    if NoGapBeforeIpless(ks, offset) {
      PrintedWithoutGap(ks, offset);
    } else {
      PrintedWithGap(ks, offset);
    }
  }

  lemma {:induction false} PrintedWithoutGap(ks: seq<Kind>, offset: nat)
    requires offset <= |ks| && NoGapBeforeIpless(ks, offset)
    ensures Printed(ks, offset) == Matching(ks, offset)
    decreases |ks| - offset
  {
    var hit := FirstHit(ks, offset);
    MatchingFrom(ks, offset);
    if hit < |ks| {
      MatchingTail(ks, offset, hit);
      PrintedWithoutGap(ks, hit + 1);
    }
  }

  lemma {:induction false} PrintedWithGap(ks: seq<Kind>, offset: nat)
    requires offset <= |ks| && !NoGapBeforeIpless(ks, offset)
    ensures Printed(ks, offset) != Matching(ks, offset)
    decreases |ks| - offset
  {
    var hit := FirstHit(ks, offset);
    if hit < |ks| {
      MatchingTail(ks, offset, hit);
      if ks[hit].Ipless? && hit != offset {
        WrongName(ks, offset);
      } else {
        PrintedWithGap(ks, hit + 1);
        LaterDifference(ks, offset);
      }
    }
  }

  lemma WrongName(ks: seq<Kind>, offset: nat)
    requires offset <= |ks|
    requires var hit := FirstHit(ks, offset); hit < |ks| && ks[hit].Ipless? && hit != offset
    ensures Printed(ks, offset) != Matching(ks, offset)
  {
    MatchingFrom(ks, offset);
    assert Printed(ks, offset)[0] == offset;
    assert Matching(ks, offset)[0] == FirstHit(ks, offset);
  }

  lemma LaterDifference(ks: seq<Kind>, offset: nat)
    requires offset <= |ks|
    requires var hit := FirstHit(ks, offset);
      hit < |ks| && (ks[hit].Ipless? ==> hit == offset) && Printed(ks, hit + 1) != Matching(ks, hit + 1)
    ensures Printed(ks, offset) != Matching(ks, offset)
  {
    var hit := FirstHit(ks, offset);
    MatchingFrom(ks, offset);
    PrintedNext(ks, offset);
    TailsDiffer(Printed(ks, offset), Printed(ks, hit + 1), hit, Matching(ks, hit + 1));
  }

  lemma TailsDiffer(one: seq<nat>, tail: seq<nat>, x: nat, other: seq<nat>)
    requires one != [] && one[1..] == tail && tail != other
    ensures one != [x] + other
  {
    assert ([x] + other)[1..] == other;
  }

  lemma MatchingTail(ks: seq<Kind>, offset: nat, hit: nat)
    requires offset <= |ks| && hit == FirstHit(ks, offset) < |ks|
    ensures NoGapBeforeIpless(ks, offset) <==> NoGapBeforeIpless(ks, hit + 1) && (ks[hit].Ipless? ==> hit == offset)
  {
    assert hit > offset ==> Before(ks, hit).Missed?;
    assert !Before(ks, hit + 1).Missed?;
  }

  /** A pattern that misses and one that matches without an IP, on a message without one: the tester
      names both. */
  lemma WrongPatternNamed(m: Message)
    requires m.ip == ""
    ensures var f := Filter([(text: string) => Miss, (text: string) => Hit(None)]);
      Matching(Kinds(f, m), 0) == [1] && Printed(Kinds(f, m), 0) == [0, 1]
  {
    var f := Filter([(text: string) => Miss, (text: string) => Hit(None)]);
    var ks := Kinds(f, m);
    assert ks == [Missed, Ipless];
    assert FirstHit(ks, 1) == 1 && FirstHit(ks, 0) == 1;
    assert Matching(ks, 2) == [] && Matching(ks, 1) == [1];
    assert Printed(ks, 2) == [] && Printed(ks, 1) == [1];
  }

  /** In particular when the message carries its own IP and no pattern captures an empty one. */
  lemma PrintedWithOwnIp(f: Filter, m: Message)
    requires m.ip != ""
    requires forall i :: 0 <= i < |f.patterns| ==> f.patterns[i](m.text) != Hit(Some(""))
    ensures Printed(Kinds(f, m), 0) == Matching(Kinds(f, m), 0)
  {
    PrintedIsMatching(Kinds(f, m), 0);
  }
}
