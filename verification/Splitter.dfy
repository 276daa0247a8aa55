/** The byte stream the encoder reads, and what one call of new_frame takes from it. */
module Splitter {
  type Byte = bv8

  /** The bytes before position e of the stream end a run of two zeros and one of 1, 2, 3, all read since `from`. */
  predicate Marker(s: seq<Byte>, from: nat, e: nat) {
    3 <= from + 3 <= e <= |s| && s[e - 3] == 0 && s[e - 2] == 0 && 1 <= s[e - 1] <= 3
  }

  /** The first position after `at` where a marker ends, or |s| + 1 if there is none. */
  function NextMarker(s: seq<Byte>, from: nat, at: nat): (e: nat)
    requires at <= |s|
    ensures at < e <= |s| + 1
    ensures e <= |s| ==> Marker(s, from, e)
    ensures forall i: nat | at < i < e :: !Marker(s, from, i)
    decreases |s| - at
  {
    if at == |s| then |s| + 1
    else if Marker(s, from, at + 1) then at + 1
    else NextMarker(s, from, at + 1)
  }

  lemma NextMarkerIs(s: seq<Byte>, from: nat, at: nat, e: nat)
    requires at < e <= |s| && Marker(s, from, e)
    requires forall i: nat | at < i < e :: !Marker(s, from, i)
    ensures NextMarker(s, from, at) == e
  {}

  /** The type of a NAL unit, from its first byte. */
  function Header(b: Byte): (h: nat) {
    (b & 31) as nat
  }

  predicate FrameHeader(b: Byte) {
    1 <= Header(b) < 7
  }

  /** The types that end a call are 1 to 6, in the low five bits of the first byte. */
  lemma FrameTypes(b: Byte)
    ensures FrameHeader(b) <==> 1 <= b % 32 <= 6
    ensures Header(b) == (b % 32) as nat
  {}

  /** How a call ends: after a separator, at the end of the file, or with an index before the buffer. */
  datatype Frame = AfterSeparator(bytes: seq<Byte>, pos: nat) | AtEnd(bytes: seq<Byte>) | Underrun

  /** What a call that started at `from` does from the unit that starts at `at`, with `out` in the buffer. The last byte
      of the file is put in the buffer twice; if the call reads no byte at all, a stale one is. */
  function Split(s: seq<Byte>, from: nat, at: nat, out: seq<Byte>, stale: Byte): (f: Frame)
    requires from <= at <= |s|
    ensures f.AfterSeparator? ==> at < f.pos <= |s|
    decreases |s| - at
  {
    var e := NextMarker(s, from, at);
    if e > |s| then AtEnd(out + s[at..] + [if |s| > from then s[|s| - 1] else stale])
    else
      var buffer := out + s[at..e];
      if |buffer| < 4 then Underrun
      else if FrameHeader(s[at]) then AfterSeparator(buffer[..|buffer| - 4], e)
      else Split(s, from, e, buffer[..|buffer| - 4], stale)
  }

  /** The largest number of bytes the buffer holds at any time while the rest of the call runs, `kept` being those in it
      when the unit at `at` starts; the byte that is stored after a failed read counts. */
  function Peak(s: seq<Byte>, from: nat, at: nat, kept: nat): (n: nat)
    requires from <= at <= |s|
    ensures n >= kept + NextMarker(s, from, at) - at
    decreases |s| - at
  {
    var e := NextMarker(s, from, at);
    var n := kept + e - at;
    if e > |s| || n < 4 || FrameHeader(s[at]) then n
    else
      var rest := Peak(s, from, e, n - 4);
      if rest > n then rest else n
  }

  ghost predicate NoMarker(s: seq<Byte>, from: nat, at: nat, pos: nat) {
    forall i: nat | at < i <= pos :: !Marker(s, from, i)
  }

  lemma NothingReadYet(s: seq<Byte>, from: nat, pos: nat)
    ensures NoMarker(s, from, pos, pos)
  {}

  // A run: the bytes from `start` to `pos` are zero but for the last one, and the byte before the run is not zero.
  ghost predicate ZeroRun(s: seq<Byte>, from: nat, start: nat, pos: nat) {
    && from <= start < pos <= |s| && (start > from ==> s[start - 1] != 0) && s[pos - 1] != 0
    && forall i | start <= i < pos - 1 :: s[i] == 0
  }

  /** A separator at the end of a run ends the unit, and says what the call does next. */
  lemma UnitEnds(s: seq<Byte>, from: nat, at: nat, out: seq<Byte>, stale: Byte, pos: nat)
    requires from <= at < pos <= |s| && NextMarker(s, from, at) == pos
    ensures var buffer := out + s[at..pos];
            Split(s, from, at, out, stale)
            == if |buffer| < 4 then Underrun
               else if FrameHeader(s[at]) then AfterSeparator(buffer[..|buffer| - 4], pos)
               else Split(s, from, pos, buffer[..|buffer| - 4], stale)
  {}

  lemma FileEnds(s: seq<Byte>, from: nat, at: nat, out: seq<Byte>, stale: Byte)
    requires from <= at <= |s| && NextMarker(s, from, at) == |s| + 1
    ensures Split(s, from, at, out, stale) == AtEnd(out + s[at..] + [if |s| > from then s[|s| - 1] else stale])
  {}

  lemma PeakOfNext(s: seq<Byte>, from: nat, at: nat, kept: nat, pos: nat)
    requires from <= at < pos <= |s| && NextMarker(s, from, at) == pos
    requires kept + pos - at >= 4 && !FrameHeader(s[at])
    ensures Peak(s, from, at, kept) ==
            var n, rest := kept + pos - at, Peak(s, from, pos, kept + pos - at - 4); if rest > n then rest else n
  {}

  lemma PeakOfLast(s: seq<Byte>, from: nat, at: nat, kept: nat, pos: nat)
    requires from <= at < pos <= |s| + 1 && NextMarker(s, from, at) == pos
    requires pos > |s| || kept + pos - at < 4 || FrameHeader(s[at])
    ensures Peak(s, from, at, kept) == kept + pos - at
  {}

  /** As long as a run holds only zeros there is room for one byte more than the peak allows so far. */
  lemma RoomInZeros(s: seq<Byte>, from: nat, at: nat, start: nat, pos: nat, kept: nat)
    requires from <= at <= start <= pos <= |s| && NoMarker(s, from, at, start)
    requires forall i | start <= i < pos :: s[i] == 0
    ensures kept + (pos - at) < Peak(s, from, at, kept)
  {
    assert forall e: nat | at < e <= pos :: !Marker(s, from, e);
  }

  lemma MarkerFound(s: seq<Byte>, from: nat, at: nat, start: nat, pos: nat)
    requires from <= at <= start && NoMarker(s, from, at, start) && ZeroRun(s, from, start, pos)
    requires pos - start >= 3 && 1 <= s[pos - 1] <= 3
    ensures NextMarker(s, from, at) == pos
  {
    NextMarkerIs(s, from, at, pos);
  }

  lemma MarkerNotFound(s: seq<Byte>, from: nat, at: nat, start: nat, pos: nat)
    requires from <= at <= start && NoMarker(s, from, at, start) && ZeroRun(s, from, start, pos)
    requires pos - start < 3 || !(1 <= s[pos - 1] <= 3)
    ensures NoMarker(s, from, at, pos)
  {}

  lemma NoMoreMarkers(s: seq<Byte>, from: nat, at: nat, start: nat)
    requires from <= at <= start <= |s| && NoMarker(s, from, at, start)
    requires forall i | start <= i < |s| - 1 :: s[i] == 0
    requires |s| > start ==> s[|s| - 1] == 0
    ensures NextMarker(s, from, at) == |s| + 1
  {
    forall e: nat | at < e <= |s| ensures !Marker(s, from, e) {}
  }
}
