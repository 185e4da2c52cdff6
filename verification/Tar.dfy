/** The ustar scan `extractNode` of src/core/native-sqlite.ts, against a writer of ustar archives. */
module Tar {
  import opened Options
  import opened Sets

  type Byte = b: int | 0 <= b < 256
  type Bytes = seq<Byte>

  const BLOCK := 512

  /** "better_sqlite3.node" */
  const WANTED: Bytes := [98, 101, 116, 116, 101, 114, 95, 115, 113, 108, 105, 116, 101, 51, 46, 110, 111, 100, 101]

  // ---- Reading a header ----

  predicate AllZero(s: Bytes) {
    forall k :: 0 <= k < |s| ==> s[k] == 0
  }

  /** UTF-8 text without \n, \r, U+2028 or U+2029, the characters `.` does not match. */
  predicate OneLine(s: Bytes) {
    && (forall k :: 0 <= k < |s| ==> s[k] != 10 && s[k] != 13)
    && (forall k :: 0 <= k < |s| - 2 ==> !(s[k] == 0xE2 && s[k + 1] == 0x80 && (s[k + 2] == 0xA8 || s[k + 2] == 0xA9)))
  }

  /** `.replace(/\0.*$/, "")`, searching from position `from`. */
  function CutAtNul(s: Bytes, from: nat): Bytes
    requires from <= |s|
    decreases |s| - from
  {
    if from == |s| then s
    else if s[from] == 0 && OneLine(s[from + 1..]) then s[..from]
    else CutAtNul(s, from + 1)
  }

  predicate EndsWith(s: Bytes, suffix: Bytes) {
    |suffix| <= |s| && s[|s| - |suffix|..] == suffix
  }

  predicate IsOctal(b: Byte) {
    48 <= b < 56
  }

  function OctalCount(s: Bytes): (n: nat)
    ensures n <= |s|
    ensures forall k :: 0 <= k < n ==> IsOctal(s[k])
  {
    if s == [] || !IsOctal(s[0]) then 0 else 1 + OctalCount(s[1..])
  }

  function OctalValue(s: Bytes): nat
    requires forall k :: 0 <= k < |s| ==> IsOctal(s[k])
  {
    if s == [] then 0
    else
      var last := s[|s| - 1];
      assert IsOctal(last);
      8 * OctalValue(s[..|s| - 1]) + (last as int - 48)
  }

  function SkipSpaces(s: Bytes): Bytes {
    if s != [] && (s[0] == 32 || 9 <= s[0] <= 13) then SkipSpaces(s[1..]) else s
  }

  /** `parseInt(text.trim(), 8) || 0`: the longest run of octal digits after a sign; no digits give 0. */
  function ParseSize(s: Bytes): int {
    var t := SkipSpaces(s);
    var signed := t != [] && (t[0] == 43 || t[0] == 45);
    var digits := if signed then t[1..] else t;
    var n: int := OctalValue(digits[..OctalCount(digits)]);
    if signed && t[0] == 45 then -n else n
  }

  /** Where `slice` puts a bound: a negative one counts from the end. */
  function Bound(at: int, length: nat): nat {
    if at < 0 then (if length + at < 0 then 0 else length + at) else if at > length then length else at
  }

  /** `s.slice(start, end)` */
  function Slice(s: Bytes, start: int, end: int): Bytes {
    var a, b := Bound(start, |s|), Bound(end, |s|);
    if a < b then s[a..b] else []
  }

  function HeaderName(header: Bytes): Bytes {
    CutAtNul(Slice(header, 0, 100), 0)
  }

  function HeaderSize(header: Bytes): int {
    ParseSize(CutAtNul(Slice(header, 124, 136), 0))
  }

  /** `Math.ceil(size / 512) * 512` */
  function Padded(size: int): int {
    -((-size) / BLOCK) * BLOCK
  }

  // ---- The scan ----

  predicate Matches(header: Bytes) {
    EndsWith(HeaderName(header), WANTED)
  }

  /** One pass of the loop: it is left with a result, or goes on from another offset, which may be negative. */
  datatype Pass = Stop(node: Option<Bytes>) | Continue(off: int)

  function HeaderAt(tar: Bytes, off: int): Bytes {
    Slice(tar, off, off + BLOCK)
  }

  function PassAt(tar: Bytes, off: int): Pass {
    if off + BLOCK > |tar| then Stop(None)
    else
      var header := HeaderAt(tar, off);
      if AllZero(header) then Stop(None)
      else if Matches(header) then Stop(Some(Slice(tar, off + BLOCK, off + BLOCK + HeaderSize(header))))
      else Continue(off + BLOCK + Padded(HeaderSize(header)))
  }

  /** Whether a loop of such passes is left within `fuel` passes more. */
  predicate Stops(pass: int -> Pass, off: int, fuel: nat)
    decreases fuel
  {
    pass(off).Stop? || (fuel > 0 && Stops(pass, pass(off).off, fuel - 1))
  }

  function Scan(pass: int -> Pass, off: int, fuel: nat): Option<Bytes>
    requires Stops(pass, off, fuel)
    decreases fuel
  {
    match pass(off)
    case Stop(node) => node
    case Continue(next) => Scan(pass, next, fuel - 1)
  }

  function Passes(tar: Bytes): int -> Pass {
    off => PassAt(tar, off)
  }

  predicate IsPassAt(pass: int -> Pass, tar: Bytes, off: int) {
    pass(off) == PassAt(tar, off)
  }

  /** `pass` gives the passes over an archive, as Passes does. */
  ghost predicate Follows(pass: int -> Pass, tar: Bytes) {
    forall off :: IsPassAt(pass, tar, off)
  }

  /** `extractNode`, on every archive on which its loop is left. */
  method ExtractNode(tar: Bytes, ghost pass: int -> Pass, ghost fuel: nat) returns (node: Option<Bytes>)
    requires Follows(pass, tar) && Stops(pass, 0, fuel)
    ensures node == Scan(pass, 0, fuel)
  {
    var off := 0;
    ghost var left := fuel;
    while off + BLOCK <= |tar|
      invariant Stops(pass, off, left) && Scan(pass, off, left) == Scan(pass, 0, fuel)
      decreases left
    {
      assert IsPassAt(pass, tar, off);
      var header := HeaderAt(tar, off);
      if AllZero(header) {
        break;
      }
      var name := CutAtNul(Slice(header, 0, 100), 0);
      var size := ParseSize(CutAtNul(Slice(header, 124, 136), 0));
      off := off + BLOCK;
      if EndsWith(name, WANTED) {
        return Some(Slice(tar, off, off + size));
      }
      off := off + Padded(size);
      left := left - 1;
    }
    assert IsPassAt(pass, tar, off);
    return None;
  }

  /** A loop that only goes forward, and stops from some offset on, is left. */
  lemma {:induction false} ForwardStops(pass: int -> Pass, off: nat, end: nat, fuel: nat)
    requires forall at: nat :: if at >= end then pass(at).Stop? else pass(at).Stop? || pass(at).off > at
    requires off + fuel >= end
    ensures Stops(pass, off, fuel)
    decreases fuel
  {
    if pass(off).Continue? {
      ForwardStops(pass, pass(off).off, end, fuel - 1);
    }
  }

  lemma PaddedForward(size: int)
    requires size > -BLOCK
    ensures Padded(size) >= 0
  {
  }

  lemma PassForward(tar: Bytes, at: nat)
    requires at + BLOCK <= |tar| ==> HeaderSize(HeaderAt(tar, at)) > -BLOCK
    ensures var p := PassAt(tar, at); if at >= |tar| then p.Stop? else p.Stop? || p.off > at
  {
    if at + BLOCK <= |tar| {
      PaddedForward(HeaderSize(HeaderAt(tar, at)));
    }
  }

  /** So the scan ends when every size is above -512. */
  lemma SizesMoveForward(tar: Bytes)
    requires forall at: nat :: at + BLOCK <= |tar| ==> HeaderSize(HeaderAt(tar, at)) > -BLOCK
    ensures Stops(Passes(tar), 0, |tar|)
  {
    forall at: nat
      ensures var p := Passes(tar)(at); if at >= |tar| then p.Stop? else p.Stop? || p.off > at
    {
      PassForward(tar, at);
    }
    ForwardStops(Passes(tar), 0, |tar|, |tar|);
  }

  // ---- The writer ----

  function Zeros(n: nat): (r: Bytes)
    ensures |r| == n && AllZero(r)
  {
    if n == 0 then [] else [0] + Zeros(n - 1)
  }

  function Pow8(n: nat): nat {
    if n == 0 then 1 else 8 * Pow8(n - 1)
  }

  /** `n` in octal, zero-filled on the left. */
  function OctalDigits(n: nat, width: nat): (r: Bytes)
    ensures |r| == width && forall k :: 0 <= k < width ==> IsOctal(r[k])
  {
    if width == 0 then [] else OctalDigits(n / 8, width - 1) + [48 + n % 8]
  }

  /** An entry: its name, its body, and the header bytes the scan does not read. */
  datatype Entry = Entry(name: Bytes, attributes: Bytes, terminator: Byte, remainder: Bytes, body: Bytes)

  /** A ustar entry: NUL-padded name, eleven octal digits of size ended by a NUL or a space. */
  predicate WellFormed(e: Entry) {
    && |e.name| <= 100 && (forall k :: 0 <= k < |e.name| ==> e.name[k] != 0)
    && |e.attributes| == 24 && |e.remainder| == 376
    && (e.terminator == 0 || e.terminator == 32)
    && |e.body| < Pow8(11)
  }

  function Header(e: Entry): (header: Bytes)
    requires WellFormed(e)
    ensures |header| == BLOCK
  {
    e.name + Zeros(100 - |e.name|) + e.attributes + (OctalDigits(|e.body|, 11) + [e.terminator]) + e.remainder
  }

  function Padding(n: nat): nat {
    (BLOCK - n % BLOCK) % BLOCK
  }

  function WriteEntry(e: Entry): Bytes
    requires WellFormed(e)
  {
    Header(e) + e.body + Zeros(Padding(|e.body|))
  }

  function WriteAll(entries: seq<Entry>, end: Bytes): Bytes
    requires forall i :: 0 <= i < |entries| ==> WellFormed(entries[i])
  {
    if entries == [] then end else WriteEntry(entries[0]) + WriteAll(entries[1..], end)
  }

  function FirstMatch(entries: seq<Entry>): Option<Bytes> {
    if entries == [] then None
    else if EndsWith(entries[0].name, WANTED) then Some(entries[0].body)
    else FirstMatch(entries[1..])
  }

  // ---- The scan reads what was written ----

  lemma {:induction false} CutFindsPadding(name: Bytes, zeros: Bytes, from: nat)
    requires AllZero(zeros) && from <= |name| && forall k :: 0 <= k < |name| ==> name[k] != 0
    ensures CutAtNul(name + zeros, from) == name
    decreases |name| - from
  {
    var s := name + zeros;
    if from < |name| {
      CutFindsPadding(name, zeros, from + 1);
    } else if zeros != [] {
      assert s[from] == 0 && OneLine(s[from + 1..]);
      assert s[..from] == name;
    } else {
      assert s == name;
    }
  }

  lemma {:induction false} OctalRoundTrip(n: nat, width: nat)
    requires n < Pow8(width)
    ensures OctalValue(OctalDigits(n, width)) == n
  {
    if width > 0 {
      OctalRoundTrip(n / 8, width - 1);
      var digits := OctalDigits(n, width);
      assert digits[..width - 1] == OctalDigits(n / 8, width - 1);
    }
  }

  lemma {:induction false} OctalCountStops(digits: Bytes, rest: Bytes)
    requires forall k :: 0 <= k < |digits| ==> IsOctal(digits[k])
    requires rest == [] || !IsOctal(rest[0])
    ensures OctalCount(digits + rest) == |digits|
  {
    if digits == [] {
      assert digits + rest == rest;
    } else {
      OctalCountStops(digits[1..], rest);
      assert (digits + rest)[1..] == digits[1..] + rest;
    }
  }

  lemma SizeReads(n: nat, rest: Bytes)
    requires n < Pow8(11) && (rest == [] || rest == [32])
    ensures ParseSize(OctalDigits(n, 11) + rest) == n
  {
    var digits := OctalDigits(n, 11);
    var s := digits + rest;
    assert IsOctal(s[0]) && SkipSpaces(s) == s;
    OctalCountStops(digits, rest);
    assert s[..11] == digits;
    OctalRoundTrip(n, 11);
  }

  lemma SizeFieldReads(n: nat, terminator: Byte)
    requires n < Pow8(11) && (terminator == 0 || terminator == 32)
    ensures ParseSize(CutAtNul(OctalDigits(n, 11) + [terminator], 0)) == n
  {
    var digits := OctalDigits(n, 11);
    if terminator == 0 {
      CutFindsPadding(digits, [0], 0);
      SizeReads(n, []);
      assert digits + [] == digits;
    } else {
      CutFindsPadding(digits + [32], [], 0);
      assert digits + [32] + [] == digits + [32];
      SizeReads(n, [32]);
    }
  }

  lemma HeaderReads(e: Entry)
    requires WellFormed(e)
    ensures HeaderName(Header(e)) == e.name && HeaderSize(Header(e)) == |e.body| && !AllZero(Header(e))
  {
    var h := Header(e);
    assert h[0..100] == e.name + Zeros(100 - |e.name|);
    CutFindsPadding(e.name, Zeros(100 - |e.name|), 0);
    var field := OctalDigits(|e.body|, 11) + [e.terminator];
    assert h[124..136] == field;
    SizeFieldReads(|e.body|, e.terminator);
    assert h[124] == field[0] && IsOctal(field[0]);
  }

  lemma PaddedLength(n: nat)
    ensures Padded(n) == n + Padding(n)
  {
  }

  lemma Parts(before: Bytes, header: Bytes, body: Bytes, rest: Bytes)
    requires |header| == BLOCK
    ensures var s, at := before + (header + body + rest), |before|;
            HeaderAt(s, at) == header && Slice(s, at + BLOCK, at + BLOCK + |body|) == body
  {
    var s, at := before + (header + body + rest), |before|;
    assert s[at..at + BLOCK] == header;
    assert s[at + BLOCK..at + BLOCK + |body|] == body;
  }

  lemma EntryParts(tar: Bytes, before: Bytes, e: Entry, rest: Bytes)
    requires WellFormed(e) && tar == before + (WriteEntry(e) + rest)
    ensures |WriteEntry(e)| == BLOCK + Padded(|e.body|) && |before| + BLOCK <= |tar|
    ensures HeaderAt(tar, |before|) == Header(e)
    ensures Slice(tar, |before| + BLOCK, |before| + BLOCK + |e.body|) == e.body
  {
    PaddedLength(|e.body|);
    var padding := Zeros(Padding(|e.body|));
    Parts(before, Header(e), e.body, padding + rest);
    assert WriteEntry(e) + rest == Header(e) + e.body + (padding + rest);
  }

  lemma PassWith(tar: Bytes, at: nat, header: Bytes, size: nat, name: Bytes)
    requires at + BLOCK <= |tar| && HeaderAt(tar, at) == header && !AllZero(header)
    requires HeaderSize(header) == size && HeaderName(header) == name
    ensures PassAt(tar, at)
            == if EndsWith(name, WANTED) then Stop(Some(Slice(tar, at + BLOCK, at + BLOCK + size)))
               else Continue(at + BLOCK + Padded(size))
  {
  }

  /** At a written entry, the scan returns its body or goes on exactly after it. */
  lemma EntryReads(tar: Bytes, before: Bytes, e: Entry, rest: Bytes)
    requires WellFormed(e) && tar == before + (WriteEntry(e) + rest)
    ensures PassAt(tar, |before|)
            == if EndsWith(e.name, WANTED) then Stop(Some(e.body)) else Continue(|before| + |WriteEntry(e)|)
  {
    HeaderReads(e);
    EntryParts(tar, before, e, rest);
    PassWith(tar, |before|, Header(e), |e.body|, e.name);
  }

  /** What may follow the entries: a block of zeros and anything, or less than a block. */
  predicate AtEnd(rest: Bytes) {
    |rest| < BLOCK || AllZero(rest[..BLOCK])
  }

  lemma EndStops(before: Bytes, end: Bytes)
    requires AtEnd(end)
    ensures PassAt(before + end, |before|) == Stop(None)
  {
    if |end| >= BLOCK {
      assert (before + end)[|before|..|before| + BLOCK] == end[..BLOCK];
    }
  }

  /** The passes that reading the entries one after another takes. */
  ghost predicate Reads(pass: int -> Pass, at: int, entries: seq<Entry>)
    requires forall i :: 0 <= i < |entries| ==> WellFormed(entries[i])
    decreases |entries|
  {
    if entries == [] then pass(at) == Stop(None)
    else
      var next := at + |WriteEntry(entries[0])|;
      && pass(at) == (if EndsWith(entries[0].name, WANTED) then Stop(Some(entries[0].body)) else Continue(next))
      && Reads(pass, next, entries[1..])
  }

  lemma {:induction false} ReadsFindFirst(pass: int -> Pass, at: int, entries: seq<Entry>)
    requires (forall i :: 0 <= i < |entries| ==> WellFormed(entries[i])) && Reads(pass, at, entries)
    ensures Stops(pass, at, |entries|) && Scan(pass, at, |entries|) == FirstMatch(entries)
    decreases |entries|
  {
    if entries != [] {
      ReadsFindFirst(pass, at + |WriteEntry(entries[0])|, entries[1..]);
    }
  }

  lemma EntryPass(tar: Bytes, pass: int -> Pass, before: Bytes, e: Entry, rest: Bytes)
    requires WellFormed(e) && tar == before + (WriteEntry(e) + rest) && Follows(pass, tar)
    ensures pass(|before|)
            == if EndsWith(e.name, WANTED) then Stop(Some(e.body)) else Continue(|before| + |WriteEntry(e)|)
  {
    assert IsPassAt(pass, tar, |before|);
    EntryReads(tar, before, e, rest);
  }

  lemma EndPass(tar: Bytes, pass: int -> Pass, before: Bytes, end: Bytes)
    requires AtEnd(end) && tar == before + end && Follows(pass, tar)
    ensures pass(|before|) == Stop(None)
  {
    assert IsPassAt(pass, tar, |before|);
    EndStops(before, end);
  }

  lemma Regroup(a: Bytes, b: Bytes, c: Bytes)
    ensures a + (b + c) == a + b + c
  {
  }

  lemma {:induction false} ArchiveReads(tar: Bytes, pass: int -> Pass, before: Bytes, entries: seq<Entry>, end: Bytes)
    requires (forall i :: 0 <= i < |entries| ==> WellFormed(entries[i])) && AtEnd(end)
    requires tar == before + WriteAll(entries, end) && Follows(pass, tar)
    ensures Reads(pass, |before|, entries)
    decreases |entries|
  {
    if entries == [] {
      EndPass(tar, pass, before, end);
    } else {
      var entry, rest := WriteEntry(entries[0]), WriteAll(entries[1..], end);
      EntryPass(tar, pass, before, entries[0], rest);
      Regroup(before, entry, rest);
      ArchiveReads(tar, pass, before + entry, entries[1..], end);
    }
  }

  /**
   * Of every archive of ustar entries, ended by a block of zeros or by the end of the file, the scan stops and
   * returns exactly the body of the first entry whose name ends in the wanted one, or nothing if none does.
   */
  lemma ScanFindsFirst(entries: seq<Entry>, end: Bytes)
    requires (forall i :: 0 <= i < |entries| ==> WellFormed(entries[i])) && AtEnd(end)
    ensures var pass := Passes(WriteAll(entries, end));
            Stops(pass, 0, |entries|) && Scan(pass, 0, |entries|) == FirstMatch(entries)
  {
    var tar := WriteAll(entries, end);
    assert tar == [] + tar;
    assert Follows(Passes(tar), tar);
    ArchiveReads(tar, Passes(tar), [], entries, end);
    ReadsFindFirst(Passes(tar), 0, entries);
  }

  // ---- Archives on which the loop is never left ----

  lemma {:induction false} NeverLeft(pass: int -> Pass, off: int, fuel: nat)
    requires pass(off) == Continue(off)
    ensures !Stops(pass, off, fuel)
  {
    if fuel > 0 {
      NeverLeft(pass, off, fuel - 1);
    }
  }

  lemma OctalThousand()
    ensures OctalValue([49, 48, 48, 48]) == 512
  {
    assert [49, 48, 48, 48][..3] == [49, 48, 48];
    assert [49, 48, 48][..2] == [49, 48];
    assert [49, 48][..1] == [49];
    assert [49][..0] == [];
    assert OctalValue([49]) == 1;
    assert OctalValue([49, 48]) == 8;
    assert OctalValue([49, 48, 48]) == 64;
  }

  /** Such as a size field of "-1000". */
  lemma MinusThousand(header: Bytes)
    requires |header| == BLOCK && header[124..136] == [45, 49, 48, 48, 48, 0, 0, 0, 0, 0, 0, 0]
    ensures HeaderSize(header) == -512
  {
    var field := header[124..136];
    var digits: Bytes := [49, 48, 48, 48];
    assert field == [45] + digits + Zeros(7);
    CutFindsPadding([45] + digits, Zeros(7), 0);
    assert ([45] + digits)[1..] == digits;
    OctalCountStops(digits, []);
    assert digits + [] == digits;
    OctalThousand();
  }

  lemma PaddedBack(size: int)
    requires -2 * BLOCK < size <= -BLOCK
    ensures BLOCK + Padded(size) == 0
  {
    var q := (-size) / BLOCK;
    assert q == 1;
  }

  /** A size above -1024 and up to -512 keeps the scan where it is, so that the loop is never left. */
  lemma {:induction false} NegativeSizeStalls(tar: Bytes, off: nat, fuel: nat)
    requires off + BLOCK <= |tar| && !AllZero(HeaderAt(tar, off)) && !Matches(HeaderAt(tar, off))
    requires -2 * BLOCK < HeaderSize(HeaderAt(tar, off)) <= -BLOCK
    ensures !Stops(Passes(tar), off, fuel)
  {
    PaddedBack(HeaderSize(HeaderAt(tar, off)));
    NeverLeft(Passes(tar), off, fuel);
  }

  /** The offset after n passes, None once the loop is left. */
  function Offset(pass: int -> Pass, off: int, n: nat): Option<int> {
    if n == 0 then Some(off)
    else match Offset(pass, off, n - 1)
      case None => None
      case Some(at) => if pass(at).Stop? then None else Some(pass(at).off)
  }

  lemma {:induction false} OffsetFirst(pass: int -> Pass, off: int, n: nat)
    requires pass(off).Continue?
    ensures Offset(pass, off, n + 1) == Offset(pass, pass(off).off, n)
  {
    if n > 0 {
      OffsetFirst(pass, off, n - 1);
    }
  }

  lemma {:induction false} NoOffsetAfter(pass: int -> Pass, off: int, n: nat)
    requires pass(off).Stop?
    ensures Offset(pass, off, n + 1).None?
  {
    if n > 0 {
      NoOffsetAfter(pass, off, n - 1);
    }
  }

  /** The loop is left within n passes more exactly when the n-th offset, if there is one, is its last. */
  lemma {:induction false} StopsByOffset(pass: int -> Pass, off: int, n: nat)
    ensures Stops(pass, off, n) <==> Offset(pass, off, n + 1).None?
    decreases n
  {
    if pass(off).Continue? {
      OffsetFirst(pass, off, n);
      if n > 0 {
        StopsByOffset(pass, pass(off).off, n - 1);
      }
    } else {
      NoOffsetAfter(pass, off, n);
    }
  }

  ghost predicate MeetsTwice(pass: int -> Pass, off: int) {
    exists i: nat, j: nat :: i < j && Offset(pass, off, i).Some? && Offset(pass, off, i) == Offset(pass, off, j)
  }

  /** Once an offset is met again, the passes repeat. */
  lemma {:induction false} Repeats(pass: int -> Pass, off: int, i: nat, j: nat, n: nat)
    requires i < j && Offset(pass, off, i).Some? && Offset(pass, off, i) == Offset(pass, off, j)
    ensures Offset(pass, off, i + n) == Offset(pass, off, j + n)
  {
    if n > 0 {
      Repeats(pass, off, i, j, n - 1);
    }
  }

  lemma {:induction false} OffsetsBefore(pass: int -> Pass, off: int, i: nat, j: nat)
    requires i <= j && Offset(pass, off, j).Some?
    ensures Offset(pass, off, i).Some?
    decreases j
  {
    if i < j {
      OffsetsBefore(pass, off, i, j - 1);
    }
  }

  lemma {:induction false} NeverStopsRepeating(pass: int -> Pass, off: int, i: nat, j: nat, n: nat)
    requires i < j && Offset(pass, off, i).Some? && Offset(pass, off, i) == Offset(pass, off, j)
    ensures Offset(pass, off, n).Some?
    decreases n
  {
    if n <= j {
      OffsetsBefore(pass, off, n, j);
    } else {
      NeverStopsRepeating(pass, off, i, j, n - (j - i));
      Repeats(pass, off, i, j, n - j);
    }
  }

  /** The offsets met before the n-th. */
  function Met(pass: int -> Pass, off: int, n: nat): (met: set<int>)
    requires Offset(pass, off, n).Some?
  {
    if n == 0 then {} else Met(pass, off, n - 1) + {Offset(pass, off, n - 1).value}
  }

  lemma {:induction false} MetAt(pass: int -> Pass, off: int, n: nat, at: int) returns (i: nat)
    requires Offset(pass, off, n).Some? && at in Met(pass, off, n)
    ensures i < n && Offset(pass, off, i) == Some(at)
  {
    i := n - 1;
    if Offset(pass, off, i) != Some(at) {
      i := MetAt(pass, off, n - 1, at);
    }
  }

  lemma {:induction false} MetCount(pass: int -> Pass, off: int, n: nat)
    requires Offset(pass, off, n).Some? && !MeetsTwice(pass, off)
    ensures |Met(pass, off, n)| == n
  {
    if n > 0 {
      MetCount(pass, off, n - 1);
      var at := Offset(pass, off, n - 1).value;
      if at in Met(pass, off, n - 1) {
        var i := MetAt(pass, off, n - 1, at);
        assert MeetsTwice(pass, off);
      }
    }
  }

  function Range(low: int, high: int): (r: set<int>)
    requires low <= high
    ensures |r| == high - low && forall at :: at in r <==> low <= at < high
    decreases high - low
  {
    if low == high then {} else {low} + Range(low + 1, high)
  }

  lemma MetInRange(pass: int -> Pass, off: int, n: nat, low: int, high: int)
    requires low <= high && Offset(pass, off, n).Some? && forall at :: pass(at).Continue? ==> low <= at < high
    ensures Met(pass, off, n) <= Range(low, high)
  {
    forall at | at in Met(pass, off, n)
      ensures low <= at < high
    {
      var i := MetAt(pass, off, n, at);
      OffsetsBefore(pass, off, i + 1, n);
    }
  }

  /** A loop whose offsets stay in a range is left exactly when it meets no offset twice. */
  lemma LeftExactly(pass: int -> Pass, off: int, low: int, high: int)
    requires low <= high && forall at :: pass(at).Continue? ==> low <= at < high
    ensures (exists fuel: nat :: Stops(pass, off, fuel)) <==> !MeetsTwice(pass, off)
  {
    if MeetsTwice(pass, off) {
      var i: nat, j: nat :| i < j && Offset(pass, off, i).Some? && Offset(pass, off, i) == Offset(pass, off, j);
      forall fuel: nat
        ensures !Stops(pass, off, fuel)
      {
        StopsByOffset(pass, off, fuel);
        NeverStopsRepeating(pass, off, i, j, fuel + 1);
      }
    } else {
      var n := high - low;
      StopsByOffset(pass, off, n);
      if Offset(pass, off, n + 1).Some? {
        MetCount(pass, off, n + 1);
        MetInRange(pass, off, n + 1, low, high);
        SubsetSize(Met(pass, off, n + 1), Range(low, high));
      }
    }
  }

  /** Before the start of the archive by a block or more there is nothing to read. */
  lemma PassesStayNear(tar: Bytes, at: int)
    ensures PassAt(tar, at).Continue? ==> -(|tar| + BLOCK) <= at < |tar|
  {
  }

  /** So `extractNode` ends exactly on the archives on which it meets no offset twice. */
  lemma ScanEndsExactly(tar: Bytes)
    ensures (exists fuel: nat :: Stops(Passes(tar), 0, fuel)) <==> !MeetsTwice(Passes(tar), 0)
  {
    forall at | Passes(tar)(at).Continue?
      ensures -(|tar| + BLOCK) <= at < |tar|
    {
      PassesStayNear(tar, at);
    }
    LeftExactly(Passes(tar), 0, -(|tar| + BLOCK), |tar|);
  }
}
