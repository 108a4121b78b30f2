/** Filling the IP placeholder of a filter pattern. */
module Placeholder {
  import opened Options

  const PLACEHOLDER: string := "${dnf2b.ip}"
  const GROUP: string := "(?<IP>\\S+)"

  predicate OccursAt(key: string, s: string, i: nat) {
    i + |key| <= |s| && forall k :: 0 <= k < |key| ==> key[k] == s[i + k]
  }

  /** No occurrence of `key` starts in `s`. */
  predicate Free(key: string, s: string) {
    forall i :: 0 <= i < |s| ==> !OccursAt(key, s, i)
  }

  /** `std::string::find` from `pos`. */
  function Find(key: string, s: string, pos: nat): (r: Option<nat>)
    ensures r.Some? ==> pos <= r.value && r.value + |key| <= |s|
    decreases |s| - pos
  {
    if pos + |key| > |s| then None
    else if OccursAt(key, s, pos) then Some(pos)
    else Find(key, s, pos + 1)
  }

  /** It finds the leftmost occurrence at or behind `pos`. */
  lemma {:induction false} FindMeans(key: string, s: string, pos: nat)
    ensures var r := Find(key, s, pos);
      && (r.Some? ==> OccursAt(key, s, r.value))
      && forall j: nat | pos <= j && (r.Some? ==> j < r.value) :: !OccursAt(key, s, j)
    decreases |s| - pos
  {
    if pos + |key| <= |s| && !OccursAt(key, s, pos) {
      FindMeans(key, s, pos + 1);
    }
  }

  /** The text cut at the occurrences of `key`, leftmost first. */
  function Pieces(key: string, s: string): (r: seq<string>)
    requires key != []
    ensures r != []
    decreases |s|
  {
    var at := Find(key, s, 0);
    if at.None? then [s] else [s[..at.value]] + Pieces(key, s[at.value + |key|..])
  }

  function Join(pieces: seq<string>, separator: string): string
    requires pieces != []
  {
    if |pieces| == 1 then pieces[0]
    else pieces[0] + separator + Join(pieces[1..], separator)
  }

  lemma JoinMore(piece: string, pieces: seq<string>, separator: string)
    requires pieces != []
    ensures Join([piece] + pieces, separator) == piece + separator + Join(pieces, separator)
  {
    assert ([piece] + pieces)[1..] == pieces;
  }

  /** Cut at every occurrence of `key`, join with `value`. */
  function Replaced(key: string, value: string, s: string): string
    requires key != []
  {
    Join(Pieces(key, s), value)
  }

  /** A filter pattern with every placeholder replaced by the IP group. */
  function Substituted(s: string): string {
    Replaced(PLACEHOLDER, GROUP, s)
  }

  /** `Pieces` cuts at occurrences of the key and nowhere else... */
  lemma {:induction false} PiecesCut(key: string, s: string)
    requires key != []
    ensures Join(Pieces(key, s), key) == s
    decreases |s|
  {
    var found := Find(key, s, 0);
    if found.Some? {
      var rest := s[found.value + |key|..];
      FindMeans(key, s, 0);
      PiecesCut(key, rest);
      JoinMore(s[..found.value], Pieces(key, rest), key);
      Around(key, s, found.value);
    }
  }

  lemma Around(key: string, s: string, at: nat)
    requires OccursAt(key, s, at)
    ensures s == s[..at] + key + s[at + |key|..]
  {
    assert s[at..at + |key|] == key;
  }

  /** ... and leaves none inside a piece. */
  lemma {:induction false} PiecesFree(key: string, s: string)
    requires key != []
    ensures forall piece :: piece in Pieces(key, s) ==> Free(key, piece)
    decreases |s|
  {
    FindMeans(key, s, 0);
    var found := Find(key, s, 0);
    if found.Some? {
      FreeBefore(key, s, found.value);
      PiecesFree(key, s[found.value + |key|..]);
    }
  }

  lemma FreeBefore(key: string, s: string, to: nat)
    requires to <= |s| && forall j :: 0 <= j < to ==> !OccursAt(key, s, j)
    ensures Free(key, s[..to])
  {
    forall j: nat | j < to ensures !OccursAt(key, s[..to], j) {
      assert !OccursAt(key, s, j);
    }
  }

  lemma ReplacedStep(key: string, value: string, s: string)
    requires key != []
    ensures var found := Find(key, s, 0);
      Replaced(key, value, s) ==
        if found.None? then s else s[..found.value] + value + Replaced(key, value, s[found.value + |key|..])
  {
    var found := Find(key, s, 0);
    if found.Some? {
      JoinMore(s[..found.value], Pieces(key, s[found.value + |key|..]), value);
    }
  }

  lemma ReplacedNowhere(key: string, value: string, s: string)
    requires key != [] && Find(key, s, 0).None?
    ensures Replaced(key, value, s) == s
  {
  }

  // ----- The loop -----

  lemma OccursBehind(key: string, done: string, rest: string, i: nat)
    ensures OccursAt(key, done + rest, |done| + i) == OccursAt(key, rest, i)
  {
    if i + |key| <= |rest| {
      assert forall k :: 0 <= k < |key| ==> (key[k] == (done + rest)[|done| + i + k]) == (key[k] == rest[i + k]);
    }
  }

  /** Searching behind text that is done is searching the rest. */
  lemma {:induction false} FindBehind(key: string, done: string, rest: string, i: nat, pos: nat)
    requires pos == |done| + i
    ensures var left, right := Find(key, rest, i), Find(key, done + rest, pos);
      if left.None? then right.None? else right == Some(|done| + left.value)
    decreases |rest| - i
  {
    OccursBehind(key, done, rest, i);
    if i + |key| <= |rest| && !OccursAt(key, rest, i) {
      FindBehind(key, done, rest, i + 1, pos + 1);
    }
  }

  lemma Cut(s: string, at: nat, n: nat) returns (head: string, hit: string, tail: string)
    requires at + n <= |s|
    ensures s == head + hit + tail && |head| == at && |hit| == n
  {
    head, hit, tail := s[..at], s[at..at + n], s[at + n..];
  }

  lemma ReplacedParts(key: string, value: string, head: string, hit: string, tail: string)
    requires key != [] && |hit| == |key| && Find(key, head + hit + tail, 0) == Some(|head|)
    ensures Replaced(key, value, head + hit + tail) == head + value + Replaced(key, value, tail)
  {
    var s := head + hit + tail;
    assert s[..|head|] == head && s[|head| + |hit|..] == tail;
    ReplacedStep(key, value, s);
  }

  lemma Regroup(a: string, b: string, c: string, d: string)
    ensures a + (b + c + d) == a + b + c + d
  {
  }

  /** One round cuts out the next occurrence and leaves the goal where it was. */
  lemma NextRound(key: string, value: string, done: string, rest: string, at: nat, goal: string)
    returns (before: string, hit: string, tail: string)
    requires key != [] && done + Replaced(key, value, rest) == goal
    requires Find(key, done + rest, |done|) == Some(at)
    ensures done + rest == before + hit + tail && |before| == at && |hit| == |key|
    ensures before + value + Replaced(key, value, tail) == goal
  {
    FindBehind(key, done, rest, 0, |done|);
    var head: string;
    head, hit, tail := Cut(rest, at - |done|, |key|);
    ReplacedParts(key, value, head, hit, tail);
    Regroup(done, head, value, Replaced(key, value, tail));
    Regroup(done, head, hit, tail);
    before := done + head;
  }

  lemma NoneBehind(key: string, done: string, rest: string)
    requires Find(key, done + rest, |done|).None?
    ensures Find(key, rest, 0).None?
  {
    var left, right := Find(key, rest, 0), Find(key, done + rest, |done|);
    FindBehind(key, done, rest, 0, |done|);
    assert left.Some? ==> right.Some?;
  }

  lemma LastRound(key: string, value: string, done: string, rest: string, goal: string)
    requires key != [] && done + Replaced(key, value, rest) == goal
    requires Find(key, done + rest, |done|).None?
    ensures done + rest == goal
  {
    NoneBehind(key, done, rest);
    ReplacedNowhere(key, value, rest);
  }

  /** `std::string::replace`: the `n` characters at `at` give way to `value`. */
  method Splice(s: string, at: nat, n: nat, value: string, ghost before: string, ghost hit: string, ghost tail: string)
    returns (t: string)
    requires s == before + hit + tail && |before| == at && |hit| == n
    ensures t == before + value + tail
  {
    t := s[..at] + value + s[at + n..];
    assert s[..at] == before && s[at + n..] == tail;
  }

  /** The find-and-replace loop of the filter constructor. */
  method ReplaceAll(source: string, key: string, value: string) returns (pattern: string)
    requires key != []
    ensures pattern == Replaced(key, value, source)
  {
    pattern := source;
    var pos: nat := 0;
    ghost var goal := Replaced(key, value, source);
    ghost var done, rest := "", source;
    while true
      invariant pattern == done + rest && pos == |done|
      invariant done + Replaced(key, value, rest) == goal
      decreases |pattern| - pos
    {
      var found := Find(key, pattern, pos);
      if found.None? {
        LastRound(key, value, done, rest, goal);
        break;
      }
      ghost var before, hit, tail := NextRound(key, value, done, rest, found.value, goal);
      pattern := Splice(pattern, found.value, |key|, value, before, hit, tail);
      pos := found.value + |value|;
      done, rest := before + value, tail;
    }
  }

  method Substitute(source: string) returns (pattern: string)
    ensures pattern == Substituted(source)
  {
    pattern := ReplaceAll(source, PLACEHOLDER, GROUP);
  }

  // ----- Nothing is left -----

  /** No character of the value starts the key, and its first one stands nowhere in the key. */
  predicate Apart(key: string, value: string) {
    && key != [] && value != []
    && key[0] !in value && value[0] !in key
  }

  lemma GroupApart()
    ensures Apart(PLACEHOLDER, GROUP)
  {
  }

  /** An occurrence cannot sit across the seams of an inserted value. */
  lemma SeamFree(key: string, value: string, a: string, b: string)
    requires Apart(key, value) && Free(key, a) && Free(key, b)
    ensures Free(key, a + value + b)
  {
    forall j: nat | j < |a + value + b| ensures !OccursAt(key, a + value + b, j) {
      NotAcrossSeam(key, value, a, b, j);
    }
  }

  lemma NotAcrossSeam(key: string, value: string, a: string, b: string, j: nat)
    requires Apart(key, value) && Free(key, a) && Free(key, b) && j < |a + value + b|
    ensures !OccursAt(key, a + value + b, j)
  {
    var s := a + value + b;
    if j + |key| <= |s| {
      if j >= |a| + |value| {
        assert !OccursAt(key, b, j - |a| - |value|);
        var k :| 0 <= k < |key| && key[k] != b[j - |a| - |value| + k];
        assert s[j + k] != key[k];
      } else if j >= |a| {
        assert s[j] == value[j - |a|] != key[0];
      } else if j + |key| <= |a| {
        assert !OccursAt(key, a, j);
        var k :| 0 <= k < |key| && key[k] != a[j + k];
        assert s[j + k] != key[k];
      } else {
        assert s[|a|] == value[0] != key[|a| - j];
      }
    }
  }

  lemma {:induction false} NoneLeft(key: string, value: string, s: string)
    requires Apart(key, value)
    ensures Free(key, Replaced(key, value, s))
    decreases |s|
  {
    FindMeans(key, s, 0);
    ReplacedStep(key, value, s);
    var found := Find(key, s, 0);
    if found.Some? {
      var rest := s[found.value + |key|..];
      FreeBefore(key, s, found.value);
      NoneLeft(key, value, rest);
      SeamFree(key, value, s[..found.value], Replaced(key, value, rest));
    }
  }

  /** After the substitution no placeholder is left, not even across a seam. */
  lemma NothingLeft(s: string)
    ensures Free(PLACEHOLDER, Substituted(s))
  {
    GroupApart();
    NoneLeft(PLACEHOLDER, GROUP, s);
  }

  lemma ReplacedFree(key: string, value: string, s: string)
    requires key != [] && Free(key, s)
    ensures Replaced(key, value, s) == s
  {
    FindMeans(key, s, 0);
    ReplacedNowhere(key, value, s);
  }

  /** So substituting again changes nothing. */
  lemma Idempotent(s: string)
    ensures Substituted(Substituted(s)) == Substituted(s)
  {
    NothingLeft(s);
    ReplacedFree(PLACEHOLDER, GROUP, Substituted(s));
  }

  // ----- The placeholder and the group by their text -----

  /** A key whose first character stands nowhere else in it cannot begin before its own copy. */
  lemma NotBefore(key: string, a: string, b: string, j: nat)
    requires key != [] && key[0] !in key[1..] && Free(key, a) && j < |a|
    ensures !OccursAt(key, a + key + b, j)
  {
    var s := a + key + b;
    if j + |key| <= |a| {
      assert !OccursAt(key, a, j);
      var k :| 0 <= k < |key| && key[k] != a[j + k];
      assert s[j + k] != key[k];
    } else {
      assert s[|a|] == key[0] != key[1..][|a| - j - 1];
    }
  }

  lemma FirstAt(key: string, a: string, b: string)
    requires key != [] && key[0] !in key[1..] && Free(key, a)
    ensures Find(key, a + key + b, 0) == Some(|a|)
  {
    var s := a + key + b;
    FindMeans(key, s, 0);
    assert forall k :: 0 <= k < |key| ==> key[k] == s[|a| + k];
    assert OccursAt(key, s, |a|);
    forall j: nat | j < |a| ensures !OccursAt(key, s, j) {
      NotBefore(key, a, b, j);
    }
  }

  /** Behind text without a placeholder the next one, spelled out, gives way to the IP group, spelled
      out; a text without one stays as it is. */
  lemma FilledInTurn(a: string, b: string)
    requires Free("${dnf2b.ip}", a)
    ensures Substituted(a + "${dnf2b.ip}" + b) == a + "(?<IP>\\S+)" + Substituted(b)
    ensures Substituted(a) == a
  {
    FirstAt(PLACEHOLDER, a, b);
    ReplacedParts(PLACEHOLDER, GROUP, a, PLACEHOLDER, b);
    ReplacedFree(PLACEHOLDER, GROUP, a);
  }
}
