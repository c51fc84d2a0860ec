/// The bounded service log: what a file of at most `limit` bytes keeps of everything written to it
/// (internal/servicelog/writer_unix.go).

module ServiceLog {
  import opened Common

  newtype Byte = b: int | 0 <= b < 256

  const NEWLINE: Byte := 10

  type Bytes = seq<Byte>

  // ---------------------------------------------------------------------------------------------
  // What one write leaves
  // ---------------------------------------------------------------------------------------------

  function FirstNewline(s: Bytes): (i: int)
    ensures -1 <= i < |s|
    ensures i >= 0 ==> s[i] == NEWLINE
    ensures forall j :: 0 <= j < (if i >= 0 then i else |s|) ==> s[j] != NEWLINE
  {
    if s == [] then -1
    else if s[0] == NEWLINE then 0
    else
      var i := FirstNewline(s[1..]);
      assert forall j :: 1 <= j < |s| ==> s[j] == s[1..][j - 1];
      if i >= 0 then i + 1 else -1
  }

  function Last(s: Bytes, n: int): Bytes { if n <= 0 then [] else if n >= |s| then s else s[|s| - n..] }

  /// Three quarters of the limit, or what is left beside `n` more bytes.
  function Room(n: nat, limit: nat): int { if limit * 3 / 4 > limit - n then limit - n else limit * 3 / 4 }

  function FromLineStart(tail: Bytes): Bytes {
    var i := FirstNewline(tail);
    if i >= 0 then tail[i + 1..] else tail
  }

  /// What is kept of the old content when it has to make room for `n` more bytes.
  function Kept(content: Bytes, n: nat, limit: nat): Bytes { FromLineStart(Last(content, Room(n, limit))) }

  function Written(content: Bytes, p: Bytes, limit: nat): Bytes {
    if |content| + |p| <= limit then content + p
    else if |p| >= limit then Last(p, limit)
    else Kept(content, |p|, limit) + p
  }

  function Lesser(a: int, b: int): int { if a < b then a else b }

  /// The old content from `k` on is what follows the first line end within its last `n` bytes, or all of those
  /// when no line ends in them.
  predicate KeptFrom(content: Bytes, n: int, k: int) {
    var start := if n < 0 then |content| else if n < |content| then |content| - n else 0;
    && start <= k <= |content|
    && if k == start then forall j :: start <= j < |content| ==> content[j] != NEWLINE
       else content[k - 1] == NEWLINE && forall j :: start <= j < k - 1 ==> content[j] != NEWLINE
  }

  /// One write: everything while it fits; the record's end when the record alone fills the limit; and else the
  /// record behind the lines that begin in the last three quarters of the limit, or in what the record leaves.
  lemma WrittenExactly(content: Bytes, p: Bytes, limit: nat)
    ensures |content| + |p| <= limit ==> Written(content, p, limit) == content + p
    ensures |content| + |p| > limit && |p| >= limit ==> Written(content, p, limit) == p[|p| - limit..]
    ensures |content| + |p| > limit && |p| < limit ==>
              exists k :: KeptFrom(content, Lesser(limit * 3 / 4, limit - |p|), k)
                && Written(content, p, limit) == content[k..] + p
  {
    if |content| + |p| > limit && |p| < limit {
      var n := Lesser(limit * 3 / 4, limit - |p|);
      assert n == Room(|p|, limit);
      var start := if n < |content| then |content| - n else 0;
      var tail := Last(content, n);
      assert tail == content[start..];
      var i := FirstNewline(tail);
      var k := if i >= 0 then start + i + 1 else start;
      assert forall j :: start <= j < |content| ==> content[j] == tail[j - start];
      assert FromLineStart(tail) == content[k..];
      assert KeptFrom(content, n, k);
    }
  }

  function AfterWrites(content: Bytes, writes: seq<Bytes>, limit: nat): Bytes {
    if writes == [] then content
    else Written(AfterWrites(content, writes[..|writes| - 1], limit), writes[|writes| - 1], limit)
  }

  function Joined(content: Bytes, writes: seq<Bytes>): Bytes {
    if writes == [] then content else Joined(content, writes[..|writes| - 1]) + writes[|writes| - 1]
  }

  // ---------------------------------------------------------------------------------------------
  // A bounded suffix
  // ---------------------------------------------------------------------------------------------

  /// `s` is what follows the first `k` bytes of `all`.
  predicate FollowsAt(s: Bytes, all: Bytes, k: nat) { k <= |all| && all[k..] == s }

  predicate SuffixOf(s: Bytes, all: Bytes) { |s| <= |all| && FollowsAt(s, all, |all| - |s|) }

  lemma LastIsSuffix(s: Bytes, n: int)
    ensures SuffixOf(Last(s, n), s) && (n >= 0 ==> |Last(s, n)| <= n)
  {}

  lemma SuffixOfSuffix(a: Bytes, b: Bytes, c: Bytes)
    requires SuffixOf(a, b) && SuffixOf(b, c)
    ensures SuffixOf(a, c)
  {}

  lemma SuffixAppends(a: Bytes, b: Bytes, p: Bytes)
    requires SuffixOf(a, b)
    ensures SuffixOf(a + p, b + p)
  {}

  lemma KeptIsSuffix(content: Bytes, n: nat, limit: nat)
    requires n <= limit
    ensures SuffixOf(Kept(content, n, limit), content) && |Kept(content, n, limit)| + n <= limit
  {
    LastIsSuffix(content, Room(n, limit));
    var tail := Last(content, Room(n, limit));
    var i := FirstNewline(tail);
    if i >= 0 {
      assert SuffixOf(tail[i + 1..], tail);
      SuffixOfSuffix(tail[i + 1..], tail, content);
    }
  }

  /// One write leaves at most `limit` bytes, and they are the newest ones.
  lemma WrittenIsBoundedSuffix(content: Bytes, p: Bytes, limit: nat)
    ensures |Written(content, p, limit)| <= limit
    ensures SuffixOf(Written(content, p, limit), content + p)
    ensures |p| <= limit ==> SuffixOf(p, Written(content, p, limit))
  {
    if |content| + |p| > limit {
      if |p| >= limit {
        LastIsSuffix(p, limit);
        assert SuffixOf(p, content + p);
        SuffixOfSuffix(Last(p, limit), p, content + p);
      } else {
        KeptIsSuffix(content, |p|, limit);
        SuffixAppends(Kept(content, |p|, limit), content, p);
      }
    }
  }

  /// After any sequence of writes the file is a suffix of everything that was ever in it or written.
  lemma {:induction false} LogIsSuffixOfHistory(content: Bytes, writes: seq<Bytes>, limit: nat)
    ensures SuffixOf(AfterWrites(content, writes, limit), Joined(content, writes))
    ensures |content| <= limit || writes != [] ==> |AfterWrites(content, writes, limit)| <= limit
  {
    if writes == [] {
      assert FollowsAt(content, content, 0);
    } else {
      var init, p := writes[..|writes| - 1], writes[|writes| - 1];
      LogIsSuffixOfHistory(content, init, limit);
      var before := AfterWrites(content, init, limit);
      WrittenIsBoundedSuffix(before, p, limit);
      SuffixAppends(before, Joined(content, init), p);
      SuffixOfSuffix(Written(before, p, limit), before + p, Joined(content, init) + p);
    }
  }

  // ---------------------------------------------------------------------------------------------
  // Whole lines
  // ---------------------------------------------------------------------------------------------

  predicate WholeLines(s: Bytes) { s == [] || s[|s| - 1] == NEWLINE }

  /// `s` is a suffix of `all` that begins at the start of a line.
  predicate LinesOf(s: Bytes, all: Bytes) {
    SuffixOf(s, all) && (|s| == |all| || s == [] || all[|all| - |s| - 1] == NEWLINE)
  }

  lemma LinesOfLines(a: Bytes, b: Bytes, c: Bytes)
    requires LinesOf(a, b) && LinesOf(b, c)
    ensures LinesOf(a, c)
  {}

  lemma LinesAppend(a: Bytes, b: Bytes, p: Bytes)
    requires LinesOf(a, b) && WholeLines(b)
    ensures LinesOf(a + p, b + p)
  {}

  lemma KeptIsLines(content: Bytes, n: nat, limit: nat)
    requires n <= limit && WholeLines(content)
    ensures LinesOf(Kept(content, n, limit), content)
  {
    KeptIsSuffix(content, n, limit);
    LastIsSuffix(content, Room(n, limit));
    var tail := Last(content, Room(n, limit));
    var i := FirstNewline(tail);
    if i >= 0 {
      assert tail[i] == content[|content| - |tail|..][i];
    }
  }

  /// Of whole lines, a write keeps whole lines, the newest ones: exactly unless a single record is longer
  /// than the limit and its cut falls inside a line.
  lemma WrittenKeepsWholeLines(content: Bytes, p: Bytes, limit: nat)
    requires WholeLines(content) && WholeLines(p) && limit > 0
    ensures LinesOf(Written(content, p, limit), content + p) <==> |p| <= limit || p[|p| - limit - 1] == NEWLINE
    ensures WholeLines(Written(content, p, limit))
  {
    WrittenIsBoundedSuffix(content, p, limit);
    if |content| + |p| > limit {
      if |p| >= limit {
        LastIsSuffix(p, limit);
        var w := Last(p, limit);
        assert |content + p| - |w| - 1 >= 0;
        if |p| > limit { assert (content + p)[|content + p| - |w| - 1] == p[|p| - limit - 1]; }
      } else {
        KeptIsLines(content, |p|, limit);
        LinesAppend(Kept(content, |p|, limit), content, p);
      }
    }
  }

  lemma LinesStep(before: Bytes, history: Bytes, p: Bytes, limit: nat)
    requires LinesOf(before, history) && WholeLines(before) && WholeLines(history) && WholeLines(p) && |p| <= limit
    requires limit > 0
    ensures LinesOf(Written(before, p, limit), history + p)
    ensures WholeLines(Written(before, p, limit)) && WholeLines(history + p)
  {
    WrittenKeepsWholeLines(before, p, limit);
    LinesAppend(before, history, p);
    LinesOfLines(Written(before, p, limit), before + p, history + p);
  }

  /// So a log of whole lines, none longer than the limit, always holds exactly the most recent lines.
  lemma {:induction false} LogHoldsRecentLines(content: Bytes, writes: seq<Bytes>, limit: nat)
    requires WholeLines(content) && limit > 0
    requires forall p :: p in writes ==> WholeLines(p) && |p| <= limit
    ensures LinesOf(AfterWrites(content, writes, limit), Joined(content, writes))
    ensures WholeLines(AfterWrites(content, writes, limit)) && WholeLines(Joined(content, writes))
  {
    if writes == [] {
      assert FollowsAt(content, content, 0);
    } else {
      var init, p := writes[..|writes| - 1], writes[|writes| - 1];
      assert p in writes && forall q :: q in init ==> q in writes;
      LogHoldsRecentLines(content, init, limit);
      LinesStep(AfterWrites(content, init, limit), Joined(content, init), p, limit);
    }
  }

  // ---------------------------------------------------------------------------------------------
  // Writes that fail
  // ---------------------------------------------------------------------------------------------

  /// Where a write stopped, and how many bytes the last call still took: before the file changed, while
  /// appending, while replacing everything by the record's end, while writing the kept lines back after the
  /// truncation, or while appending the record behind them.
  datatype Failure =
    | Untouched
    | Appending(count: nat)
    | Replacing(count: nat)
    | Rewriting(count: nat)
    | Following(count: nat)

  function First(s: Bytes, n: nat): Bytes { if n <= |s| then s[..n] else s }

  predicate Fits(content: Bytes, p: Bytes, limit: nat) { |content| + |p| <= limit }

  predicate CanFail(content: Bytes, p: Bytes, limit: nat, f: Failure) {
    match f
    case Untouched => true
    case Appending(m) => Fits(content, p, limit) && m <= |p|
    case Replacing(m) => !Fits(content, p, limit) && |p| >= limit && m <= limit
    case Rewriting(m) => !Fits(content, p, limit) && |p| < limit && m <= |Kept(content, |p|, limit)|
    case Following(m) => !Fits(content, p, limit) && |p| < limit && m <= |p|
  }

  /// What a failed write leaves.
  function Failed(content: Bytes, p: Bytes, limit: nat, f: Failure): Bytes {
    match f
    case Untouched => content
    case Appending(m) => content + First(p, m)
    case Replacing(m) => First(Last(p, limit), m)
    case Rewriting(m) => First(Kept(content, |p|, limit), m)
    case Following(m) => Kept(content, |p|, limit) + First(p, m)
  }

  /// The bytes of the record that the file took.
  function Taken(p: Bytes, limit: nat, f: Failure): Bytes {
    match f
    case Untouched => []
    case Appending(m) => First(p, m)
    case Replacing(m) => First(Last(p, limit), m)
    case Rewriting(_) => []
    case Following(m) => First(p, m)
  }

  /// What was written back when the kept lines were interrupted is also their end, as nothing and all are.
  predicate Harmless(content: Bytes, p: Bytes, limit: nat, f: Failure) {
    f.Rewriting? ==> SuffixOf(First(Kept(content, |p|, limit), f.count), Kept(content, |p|, limit))
  }

  lemma SuffixCancels(a: Bytes, b: Bytes, p: Bytes)
    ensures SuffixOf(a + p, b + p) <==> SuffixOf(a, b)
  {
    if SuffixOf(a + p, b + p) {
      var k := |b| - |a|;
      assert (b + p)[k..] == b[k..] + p;
      assert b[k..] == (b[k..] + p)[..|a|];
      assert a == (a + p)[..|a|];
    } else if SuffixOf(a, b) {
      SuffixAppends(a, b, p);
    }
  }

  lemma ShorterSuffix(a: Bytes, b: Bytes, c: Bytes)
    requires SuffixOf(a, c) && SuffixOf(b, c) && |a| <= |b|
    ensures SuffixOf(a, b)
  {}

  lemma FailedIsBounded(content: Bytes, p: Bytes, limit: nat, f: Failure)
    requires CanFail(content, p, limit, f) && |content| <= limit
    ensures |Failed(content, p, limit, f)| <= limit
  {
    if f.Rewriting? || f.Following? { KeptIsSuffix(content, |p|, limit); }
  }

  /// A failed write leaves a suffix of what the file took, of a content that was one, if and only if it did
  /// not stop inside the kept lines at a point where what is back is not their end.
  lemma FailureKeepsSuffixIff(content: Bytes, history: Bytes, p: Bytes, limit: nat, f: Failure)
    requires SuffixOf(content, history) && CanFail(content, p, limit, f)
    ensures SuffixOf(Failed(content, p, limit, f), history + Taken(p, limit, f)) <==> Harmless(content, p, limit, f)
  {
    match f
    case Untouched => assert history + [] == history;
    case Appending(m) => SuffixAppends(content, history, First(p, m));
    case Replacing(m) => assert SuffixOf(First(Last(p, limit), m), history + First(Last(p, limit), m));
    case Rewriting(m) =>
      assert history + [] == history;
      KeptIsSuffix(content, |p|, limit);
      SuffixOfSuffix(Kept(content, |p|, limit), content, history);
      var back := First(Kept(content, |p|, limit), m);
      if SuffixOf(back, history) {
        ShorterSuffix(back, Kept(content, |p|, limit), history);
      } else if Harmless(content, p, limit, f) {
        SuffixOfSuffix(back, Kept(content, |p|, limit), history);
      }
    case Following(m) =>
      KeptIsSuffix(content, |p|, limit);
      SuffixOfSuffix(Kept(content, |p|, limit), content, history);
      SuffixAppends(Kept(content, |p|, limit), history, First(p, m));
  }

  /// What a write retains of the old content: all, the end of it, or nothing.
  function Retained(content: Bytes, p: Bytes, limit: nat): Bytes {
    if Fits(content, p, limit) then content else if |p| >= limit then [] else Kept(content, |p|, limit)
  }

  /// Whatever an earlier failure left, a later write that succeeds leaves a suffix of the history if and only
  /// if what it retains is one; so a record of the limit's size restores the log at once.
  lemma WriteRestoresIff(content: Bytes, history: Bytes, p: Bytes, limit: nat)
    ensures SuffixOf(Written(content, p, limit), history + p) <==> SuffixOf(Retained(content, p, limit), history)
  {
    if !Fits(content, p, limit) && |p| >= limit {
      LastIsSuffix(p, limit);
      assert SuffixOf(p, history + p);
      SuffixOfSuffix(Last(p, limit), p, history + p);
    } else {
      SuffixCancels(Retained(content, p, limit), history, p);
    }
  }

  lemma {:induction false} JoinedSplits(content: Bytes, writes: seq<Bytes>)
    ensures Joined(content, writes) == content + Joined([], writes)
  {
    if writes != [] {
      JoinedSplits(content, writes[..|writes| - 1]);
      assert Joined(content, writes) == content + (Joined([], writes[..|writes| - 1]) + writes[|writes| - 1]);
    }
  }

  /// Once the limit's worth of bytes has been written again the log is a suffix of the history, whatever
  /// content the failures had left.
  lemma RestoredAfterLimit(content: Bytes, history: Bytes, writes: seq<Bytes>, limit: nat)
    requires |content| <= limit <= |Joined([], writes)|
    ensures SuffixOf(AfterWrites(content, writes, limit), history + Joined([], writes))
  {
    LogIsSuffixOfHistory(content, writes, limit);
    JoinedSplits(content, writes);
    var written := Joined([], writes);
    assert SuffixOf(written, content + written) && SuffixOf(written, history + written);
    ShorterSuffix(AfterWrites(content, writes, limit), written, content + written);
    SuffixOfSuffix(AfterWrites(content, writes, limit), written, history + written);
  }

  // ---------------------------------------------------------------------------------------------
  // Runs with failures
  // ---------------------------------------------------------------------------------------------

  datatype Event = Wrote(record: Bytes) | Failing(record: Bytes, how: Failure)

  function After(content: Bytes, e: Event, limit: nat): Bytes {
    match e case Wrote(p) => Written(content, p, limit) case Failing(p, f) => Failed(content, p, limit, f)
  }

  function Accepted(e: Event, limit: nat): Bytes { match e case Wrote(p) => p case Failing(p, f) => Taken(p, limit, f) }

  function AfterEvents(content: Bytes, events: seq<Event>, limit: nat): Bytes {
    if events == [] then content
    else After(AfterEvents(content, events[..|events| - 1], limit), events[|events| - 1], limit)
  }

  function AllAccepted(content: Bytes, events: seq<Event>, limit: nat): Bytes {
    if events == [] then content
    else AllAccepted(content, events[..|events| - 1], limit) + Accepted(events[|events| - 1], limit)
  }

  predicate EventCan(content: Bytes, e: Event, limit: nat) { e.Failing? ==> CanFail(content, e.record, limit, e.how) }

  predicate EventHarmless(content: Bytes, e: Event, limit: nat) {
    e.Failing? ==> Harmless(content, e.record, limit, e.how)
  }

  ghost predicate Possible(content: Bytes, events: seq<Event>, limit: nat) {
    forall k :: 0 <= k < |events| ==> EventCan(AfterEvents(content, events[..k], limit), events[k], limit)
  }

  /// No failure so far stopped inside the kept lines where it matters.
  ghost predicate NoneHarmful(content: Bytes, events: seq<Event>, limit: nat) {
    forall k :: 0 <= k < |events| ==> EventHarmless(AfterEvents(content, events[..k], limit), events[k], limit)
  }

  ghost predicate SuffixAfter(content: Bytes, events: seq<Event>, limit: nat) {
    SuffixOf(AfterEvents(content, events, limit), AllAccepted(content, events, limit))
  }

  lemma EventKeepsSuffixIff(content: Bytes, history: Bytes, e: Event, limit: nat)
    requires SuffixOf(content, history) && EventCan(content, e, limit)
    ensures SuffixOf(After(content, e, limit), history + Accepted(e, limit)) <==> EventHarmless(content, e, limit)
  {
    match e
    case Wrote(p) =>
      WrittenIsBoundedSuffix(content, p, limit);
      SuffixAppends(content, history, p);
      SuffixOfSuffix(Written(content, p, limit), content + p, history + p);
    case Failing(p, f) => FailureKeepsSuffixIff(content, history, p, limit, f);
  }

  lemma SuffixUpTo(content: Bytes, events: seq<Event>, limit: nat, k: nat)
    requires k < |events| && SuffixAfter(content, events[..k], limit)
    requires EventCan(AfterEvents(content, events[..k], limit), events[k], limit)
    ensures SuffixAfter(content, events[..k + 1], limit)
        <==> EventHarmless(AfterEvents(content, events[..k], limit), events[k], limit)
  {
    assert events[..k + 1][..k] == events[..k];
    EventKeepsSuffixIff(AfterEvents(content, events[..k], limit), AllAccepted(content, events[..k], limit), events[k],
                        limit);
  }

  lemma {:induction false} HarmlessIsSuffix(content: Bytes, events: seq<Event>, limit: nat, k: nat)
    requires k <= |events| && Possible(content, events, limit) && NoneHarmful(content, events, limit)
    ensures SuffixAfter(content, events[..k], limit)
  {
    if k == 0 {
      assert FollowsAt(content, content, 0);
    } else {
      HarmlessIsSuffix(content, events, limit, k - 1);
      SuffixUpTo(content, events, limit, k - 1);
    }
  }

  /// Over every run of successful and failed writes the file is at all times a suffix of everything it took
  /// if and only if no failure is a harmful interruption of the lines being written back.
  lemma LogIsSuffixIffNoneHarmful(content: Bytes, events: seq<Event>, limit: nat)
    requires Possible(content, events, limit)
    ensures (forall k :: 0 <= k <= |events| ==> SuffixAfter(content, events[..k], limit))
        <==> NoneHarmful(content, events, limit)
  {
    if NoneHarmful(content, events, limit) {
      forall k | 0 <= k <= |events|
        ensures SuffixAfter(content, events[..k], limit)
      {
        HarmlessIsSuffix(content, events, limit, k);
      }
    } else {
      var k :| 0 <= k < |events| && !EventHarmless(AfterEvents(content, events[..k], limit), events[k], limit);
      if SuffixAfter(content, events[..k], limit) { SuffixUpTo(content, events, limit, k); }
    }
  }

  /// The bound survives every failure.
  lemma {:induction false} LogStaysBounded(content: Bytes, events: seq<Event>, limit: nat)
    requires |content| <= limit && Possible(content, events, limit)
    ensures |AfterEvents(content, events, limit)| <= limit
  {
    if events != [] {
      var init, e := events[..|events| - 1], events[|events| - 1];
      forall k | 0 <= k < |init| ensures EventCan(AfterEvents(content, init[..k], limit), init[k], limit) {
        assert init[..k] == events[..k];
      }
      LogStaysBounded(content, init, limit);
      match e
      case Wrote(p) => WrittenIsBoundedSuffix(AfterEvents(content, init, limit), p, limit);
      case Failing(p, f) => FailedIsBounded(AfterEvents(content, init, limit), p, limit, f);
    }
  }

  // ---------------------------------------------------------------------------------------------
  // The file and its writer
  // ---------------------------------------------------------------------------------------------

  /// An append-only regular file; the system may take fewer bytes than offered, or fail.
  class ManagedFile {
    var content: Bytes

    constructor (content: Bytes)
      ensures this.content == content
    {
      this.content := content;
    }

    method Append(p: Bytes) returns (n: nat, failed: bool)
      modifies this
      ensures n <= |p| && content == old(content) + p[..n]
    {
      n :| 0 <= n <= |p|;
      failed := *;
      content := content + p[..n];
    }

    method Truncate(fails: bool)
      modifies this
      ensures content == if fails then old(content) else []
    {
      if !fails { content := []; }
    }
  }

  class Writer {
    const file: ManagedFile
    const limit: nat

    constructor (file: ManagedFile, limit: nat)
      requires limit > 0
      ensures this.file == file && this.limit == limit
    {
      this.file, this.limit := file, limit;
    }

    /// Writes everything, or stops at the first error with a prefix written.
    method WriteAll(p: Bytes) returns (ok: bool, ghost count: nat)
      modifies file
      ensures count <= |p| && file.content == old(file.content) + p[..count] && (ok ==> count == |p|)
    {
      var rest := p;
      count := 0;
      assert file.content == old(file.content) + p[..0];
      while |rest| > 0
        invariant |rest| <= |p| && rest == p[|p| - |rest|..]
        invariant count == |p| - |rest| && file.content == old(file.content) + p[..count]
      {
        var n, failed := file.Append(rest);
        assert p[..count + n] == p[..count] + rest[..n];
        count := count + n;
        if failed || n == 0 { return false, count; }
        rest := rest[n..];
      }
      ok := true;
    }

    /// The newest `keep` bytes.
    method ReadTail(keep: int, fails: bool) returns (tail: Option<Bytes>)
      ensures tail == if keep > 0 && |file.content| > 0 && fails then None else Some(Last(file.content, keep))
    {
      if keep <= 0 || |file.content| == 0 { return Some([]); }
      if fails { return None; }
      tail := Some(Last(file.content, keep));
    }

    /// Replaces the content by the end of one record that is at least as long as the limit.
    method Replace(p: Bytes, truncateFails: bool) returns (ok: bool, ghost failure: Failure)
      requires |p| >= limit
      modifies file
      ensures ok ==> file.content == Last(p, limit)
      ensures !ok ==> failure.Untouched? || (failure.Replacing? && failure.count <= limit)
      ensures !ok ==> file.content == Failed(old(file.content), p, limit, failure)
    {
      if truncateFails { return false, Untouched; }
      ghost var count;
      ok, count := Rewrite(Last(p, limit));
      failure := Replacing(count);
    }

    /// Empties the file and writes `s`.
    method Rewrite(s: Bytes) returns (ok: bool, ghost count: nat)
      modifies file
      ensures count <= |s| && file.content == First(s, count) && (ok ==> file.content == s)
    {
      file.Truncate(false);
      ok, count := WriteAll(s);
      assert [] + s[..count] == s[..count] && s[..|s|] == s;
    }

    /// Keeps the end of the old content from a line start on, and appends the record.
    method MakeRoom(p: Bytes, truncateFails: bool, readFails: bool) returns (ok: bool, ghost failure: Failure)
      requires |p| < limit
      modifies file
      ensures ok ==> file.content == Kept(old(file.content), |p|, limit) + p
      ensures !ok ==> failure.Untouched? || failure.Rewriting? || failure.Following?
      ensures !ok && failure.Rewriting? ==> failure.count <= |Kept(old(file.content), |p|, limit)|
      ensures !ok && failure.Following? ==> failure.count <= |p|
      ensures !ok ==> file.content == Failed(old(file.content), p, limit, failure)
    {
      var kept := KeepTail(|p|, readFails);
      if kept.None? || truncateFails { return false, Untouched; }
      ghost var count;
      ok, count := Rewrite(kept.value);
      if !ok { return false, Rewriting(count); }
      ok, count := WriteAll(p);
      failure := Following(count);
    }

    method KeepTail(n: nat, fails: bool) returns (kept: Option<Bytes>)
      requires n < limit
      ensures kept.Some? ==> kept.value == Kept(file.content, n, limit)
    {
      var read := ReadTail(Room(n, limit), fails);
      if read.None? { return None; }
      kept := Some(FromLineStart(read.value));
    }

    /// Makes room and writes. `invalid` stands for a changed path or a failing stat.
    method EnforceBound(p: Bytes, invalid: bool, truncateFails: bool, readFails: bool)
      returns (ok: bool, ghost failure: Failure)
      modifies file
      ensures ok ==> file.content == Written(old(file.content), p, limit)
      ensures !ok ==> CanFail(old(file.content), p, limit, failure)
      ensures !ok ==> file.content == Failed(old(file.content), p, limit, failure)
    {
      if invalid { return false, Untouched; }
      if |file.content| <= limit && |p| <= limit - |file.content| {
        ghost var count;
        ok, count := WriteAll(p);
        failure := Appending(count);
      } else if |p| >= limit {
        ok, failure := Replace(p, truncateFails);
      } else {
        ok, failure := MakeRoom(p, truncateFails, readFails);
      }
    }
  }

  // ---------------------------------------------------------------------------------------------
  // An error in the middle of a compaction
  // ---------------------------------------------------------------------------------------------

  const LINES: Bytes := [97, 10, 98, 10, 99, 10, 100, 10]
  const RECORD: Bytes := [101, 10]
  const NEXT: Bytes := [102, 10]

  lemma KeptLines()
    ensures Kept(LINES, 2, 8) == [99, 10, 100, 10]
  {
    var tail := Last(LINES, 6);
    assert tail == [98, 10, 99, 10, 100, 10];
    assert FirstNewline(tail) == 1;
    assert tail[2..] == [99, 10, 100, 10];
  }

  /// Concrete run: compaction truncates the file and keeps "c\\nd\\n"; if writing that back stops after two
  /// bytes, the next successful write leaves "c\\nf\\n", which is no suffix of what was written.
  lemma FailedCompactionBreaksTheSuffix()
    ensures CanFail(LINES, RECORD, 8, Rewriting(2)) && !Harmless(LINES, RECORD, 8, Rewriting(2))
    ensures var broken := Failed(LINES, RECORD, 8, Rewriting(2));
            !SuffixOf(broken, LINES) && |Written(broken, NEXT, 8)| <= 8
                && !SuffixOf(Written(broken, NEXT, 8), LINES + RECORD + NEXT)
  {
    KeptLines();
    var broken := Kept(LINES, 2, 8)[..2];
    assert broken == [99, 10];
    var all := LINES + RECORD + NEXT;
    assert all[|all| - 4..] == RECORD + NEXT;
    assert Written(broken, NEXT, 8) == broken + NEXT;
    assert (broken + NEXT)[0] == 99 && (RECORD + NEXT)[0] == 101;
  }
}
