/** Two bounded readers against what they are for: the start of a stream, and a range of the lines of a text. */
module Readers {
  import opened Wrappers

  type Byte = bv8

  // ---------------------------------------------------------------------------------------------
  // The first bytes of a stream
  // ---------------------------------------------------------------------------------------------

  /** What one read gives: some bytes (none at the end) or a failure. */
  datatype ReadResult = Got(bytes: seq<Byte>) | Failed

  /** Everything a stream gives before it ends or fails. */
  function Content(parts: seq<ReadResult>): seq<Byte> {
    if parts == [] || parts[0].Failed? || parts[0].bytes == [] then []
    else parts[0].bytes + Content(parts[1..])
  }

  function Min(a: nat, b: nat): nat {
    if a < b then a else b
  }

  /** However the stream is cut into reads: the first `cap` bytes, and truncated exactly if there were more. */
  method ReadCapped(parts: seq<ReadResult>, cap: nat) returns (out: seq<Byte>, truncated: bool)
    ensures out == Content(parts)[..Min(cap, |Content(parts)|)]
    ensures truncated <==> |Content(parts)| > cap
  {
    out, truncated := [], false;
    var i := 0;
    ghost var before: seq<Byte> := [];
    assert parts[0..] == parts;
    while i < |parts|
      invariant i <= |parts| && Content(parts) == before + Content(parts[i..])
      invariant out == before[..Min(cap, |before|)] && (truncated <==> |before| > cap)
    {
      assert parts[i..][1..] == parts[i + 1..];
      var r := parts[i];
      if r.Failed? || r.bytes == [] {
        break;
      }
      var n := |r.bytes|;
      if |out| < cap {
        var take := Min(cap - |out|, n);
        out := out + r.bytes[..take];
        if take < n {
          truncated := true;
        }
      } else {
        truncated := true;
      }
      before := before + r.bytes;
      i := i + 1;
    }
    assert Content(parts[i..]) == [];
  }

  /** Two ways of cutting the same stream are read alike. */
  lemma {:induction false} CuttingDoesNotMatter(parts: seq<ReadResult>, k: nat, bytes: seq<Byte>, j: nat)
    requires k < |parts| && parts[k] == Got(bytes) && 0 < j < |bytes|
    ensures Content(parts[..k] + [Got(bytes[..j]), Got(bytes[j..])] + parts[k + 1..]) == Content(parts)
  {
    var cut := parts[..k] + [Got(bytes[..j]), Got(bytes[j..])] + parts[k + 1..];
    if k == 0 {
      assert cut[1..][1..] == parts[1..] && cut[1] == Got(bytes[j..]);
      assert bytes == bytes[..j] + bytes[j..];
      assert Content(cut[1..]) == bytes[j..] + Content(parts[1..]);
    } else {
      assert cut[1..] == parts[1..][..k - 1] + [Got(bytes[..j]), Got(bytes[j..])] + parts[1..][k..];
      CuttingDoesNotMatter(parts[1..], k - 1, bytes, j);
    }
  }

  // ---------------------------------------------------------------------------------------------
  // A range of lines
  // ---------------------------------------------------------------------------------------------

  const NEWLINE: Byte := 10

  /** No text in memory or on disk is longer than that; counters are unsigned words. */
  const MAX_LENGTH := 0x7FFF_FFFF_FFFF_FFFF
  const MAX_COUNT := 0xFFFF_FFFF_FFFF_FFFF

  /** The bytes up to and with the first newline, or all of them. */
  function LineLength(s: seq<Byte>): (n: nat)
    ensures n <= |s| && (s != [] ==> n > 0)
    ensures forall i :: 0 <= i < n - 1 ==> s[i] != NEWLINE
    ensures n < |s| ==> s[n - 1] == NEWLINE
  {
    if s == [] then 0 else if s[0] == NEWLINE then 1 else 1 + LineLength(s[1..])
  }

  /** The lines of a text, each with its newline. */
  function SplitInclusive(s: seq<Byte>): (lines: seq<seq<Byte>>)
    ensures |lines| <= |s|
    decreases |s|
  {
    if s == [] then [] else [s[..LineLength(s)]] + SplitInclusive(s[LineLength(s)..])
  }

  function Joined(lines: seq<seq<Byte>>): seq<Byte> {
    if lines == [] then [] else lines[0] + Joined(lines[1..])
  }

  function Skip(lines: seq<seq<Byte>>, n: nat): seq<seq<Byte>> {
    if n <= |lines| then lines[n..] else []
  }

  function Take(lines: seq<seq<Byte>>, n: nat): seq<seq<Byte>> {
    if n <= |lines| then lines[..n] else lines
  }

  function SaturatingPred(n: nat): nat {
    if n == 0 then 0 else n - 1
  }

  function SaturatingAdd(a: nat, b: nat): nat {
    if a + b > MAX_COUNT then MAX_COUNT else a + b
  }

  /** The range of a text in memory, lines counted from one. */
  function LinesRange(s: seq<Byte>, offset: nat, limit: Option<nat>): seq<Byte> {
    Joined(Take(Skip(SplitInclusive(s), SaturatingPred(offset)), if limit.Some? then limit.value else MAX_COUNT))
  }

  lemma {:induction false} JoinedConcat(a: seq<seq<Byte>>, b: seq<seq<Byte>>)
    ensures Joined(a + b) == Joined(a) + Joined(b)
  {
    if a == [] {
      assert a + b == b;
    } else {
      assert (a + b)[1..] == a[1..] + b;
      JoinedConcat(a[1..], b);
    }
  }

  /** Splitting loses nothing: the lines joined are the text. */
  lemma {:induction false} SplitJoins(s: seq<Byte>)
    ensures Joined(SplitInclusive(s)) == s
    decreases |s|
  {
    hide LineLength;
    if s != [] {
      var n := LineLength(s);
      SplitJoins(s[n..]);
      JoinedFirst(s[..n], SplitInclusive(s[n..]));
      assert s == s[..n] + s[n..];
    }
  }

  lemma JoinedFirst(first: seq<Byte>, rest: seq<seq<Byte>>)
    ensures Joined([first] + rest) == first + Joined(rest)
  {
    assert ([first] + rest)[1..] == rest;
  }

  /** The lines from `start` up to `end`, as far as there are any. */
  function Between(lines: seq<seq<Byte>>, start: nat, end: nat): seq<seq<Byte>> {
    if start >= |lines| || end <= start then [] else lines[start..Min(end, |lines|)]
  }

  lemma RangeIsBetween(s: seq<Byte>, offset: nat, limit: Option<nat>)
    requires |s| <= MAX_LENGTH && (limit.Some? ==> limit.value <= MAX_COUNT)
    ensures var start := SaturatingPred(offset);
      LinesRange(s, offset, limit)
      == Joined(Between(SplitInclusive(s), start, if limit.Some? then SaturatingAdd(start, limit.value) else |s|))
  {
    hide SplitInclusive, Joined, Take, Skip, Between;
    var lines, start := SplitInclusive(s), SaturatingPred(offset);
    var n := if limit.Some? then limit.value else MAX_COUNT;
    TakeOfSkip(lines, start, n, if limit.Some? then SaturatingAdd(start, limit.value) else |s|);
  }

  lemma TakeOfSkip(lines: seq<seq<Byte>>, start: nat, n: nat, end: nat)
    requires |lines| <= MAX_LENGTH && (end == SaturatingAdd(start, n) || (n == MAX_COUNT && end >= |lines|))
    ensures Take(Skip(lines, start), n) == Between(lines, start, end)
  {
    if start < |lines| {
      var rest := lines[start..];
      if n <= |rest| {
        assert rest[..n] == lines[start..start + n];
      }
    }
  }

  lemma JoinedNothing()
    ensures Joined([]) == []
  {
  }

  lemma BetweenNext(lines: seq<seq<Byte>>, start: nat, idx: nat)
    requires idx < |lines|
    ensures Joined(Between(lines, start, idx + 1))
      == Joined(Between(lines, start, idx)) + if idx >= start then lines[idx] else []
  {
    if idx >= start {
      assert Between(lines, start, idx + 1) == Between(lines, start, idx) + [lines[idx]];
      JoinedConcat(Between(lines, start, idx), [lines[idx]]);
      assert [lines[idx]][1..] == [];
    }
  }

  /** The streaming reader gives what the in-memory split, skip and take give. */
  method ReadLinesRange(s: seq<Byte>, offset: nat, limit: Option<nat>) returns (out: seq<Byte>)
    requires |s| <= MAX_LENGTH && (limit.Some? ==> limit.value <= MAX_COUNT)
    ensures out == LinesRange(s, offset, limit)
  {
    hide Joined, LinesRange, Between, SplitInclusive;
    JoinedNothing();
    NothingBetween(SplitInclusive(s), SaturatingPred(offset));
    RangeIsBetween(s, offset, limit);
    ghost var lines := SplitInclusive(s);
    var start := SaturatingPred(offset);
    var end := if limit.Some? then Some(SaturatingAdd(start, limit.value)) else None;
    var rest, idx := s, 0;
    out := [];
    assert lines[0..] == lines;
    while true
      invariant idx <= |lines| && SplitInclusive(rest) == lines[idx..]
      invariant end.Some? ==> idx <= end.value
      invariant out == Joined(Between(lines, start, idx))
      decreases |lines| - idx
    {
      if end.Some? && idx >= end.value {
        break;
      }
      var n := LineLength(rest);
      var line := rest[..n];
      FirstLine(rest);
      if n == 0 {
        break;
      }
      assert line == lines[idx] && lines[idx..][1..] == lines[idx + 1..];
      BetweenNext(lines, start, idx);
      if idx >= start {
        out := out + line;
      }
      rest := rest[n..];
      idx := idx + 1;
    }
    if end.None? || idx < end.value {
      AllBetween(lines, start, idx, if end.Some? then end.value else |s|);
    }
  }

  /** The first line, and what is left to split. */
  lemma FirstLine(s: seq<Byte>)
    ensures LineLength(s) == 0 <==> SplitInclusive(s) == []
    ensures s != [] ==> SplitInclusive(s) == [s[..LineLength(s)]] + SplitInclusive(s[LineLength(s)..])
  {
  }

  lemma NothingBetween(lines: seq<seq<Byte>>, start: nat)
    ensures Between(lines, start, 0) == []
  {
  }

  lemma AllBetween(lines: seq<seq<Byte>>, start: nat, idx: nat, end: nat)
    requires idx == |lines| <= end
    ensures Between(lines, start, idx) == Between(lines, start, end)
  {
  }

  /** Two ranges that follow each other are the whole text: nothing is lost or read twice. */
  lemma RangesMeet(s: seq<Byte>, n: nat)
    requires |s| <= MAX_LENGTH && n <= MAX_COUNT
    ensures LinesRange(s, 1, Some(n)) + LinesRange(s, n + 1, None) == s
  {
    var lines := SplitInclusive(s);
    SplitJoins(s);
    var first := if n <= |lines| then n else |lines|;
    assert Take(Skip(lines, 0), n) == lines[..first];
    assert Take(Skip(lines, n), MAX_COUNT) == lines[first..];
    JoinedConcat(lines[..first], lines[first..]);
    assert lines[..first] + lines[first..] == lines;
  }

  /** Something, with no newline but perhaps its last byte. */
  predicate IsLine(line: seq<Byte>) {
    line != [] && forall j :: 0 <= j < |line| - 1 ==> line[j] != 10
  }

  /** Every line is one, and only the last may lack its newline. */
  lemma {:induction false} LinesAreLines(s: seq<Byte>)
    ensures var lines := SplitInclusive(s);
      forall i :: 0 <= i < |lines| ==>
        IsLine(lines[i]) && (i < |lines| - 1 ==> lines[i][|lines[i]| - 1] == 10)
    decreases |s|
  {
    hide SplitInclusive, IsLine;
    FirstLine(s);
    if s != [] {
      var n := LineLength(s);
      var line, rest := s[..n], SplitInclusive(s[n..]);
      LinesAreLines(s[n..]);
      FirstIsLine(s);
      FirstLine(s[n..]);
      assert rest != [] ==> n < |s| && line[n - 1] == 10;
      assert forall i :: 0 < i <= |rest| ==> ([line] + rest)[i] == rest[i - 1];
    }
  }

  lemma FirstIsLine(s: seq<Byte>)
    requires s != []
    ensures IsLine(s[..LineLength(s)])
  {
  }

  /** Lines are counted from one, and line zero is the first too. */
  lemma LineByNumber(s: seq<Byte>, k: nat, limit: Option<nat>)
    ensures k < |SplitInclusive(s)| ==> LinesRange(s, k + 1, Some(1)) == SplitInclusive(s)[k]
    ensures LinesRange(s, 0, limit) == LinesRange(s, 1, limit)
  {
    hide SplitInclusive;
    var lines := SplitInclusive(s);
    if k < |lines| {
      assert Take(Skip(lines, k), 1) == [lines[k]];
      JoinedFirst(lines[k], []);
      assert [lines[k]] + [] == [lines[k]] && lines[k] + [] == lines[k];
      JoinedNothing();
    }
  }
}
