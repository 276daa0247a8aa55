/** new_frame on streams of NAL units separated by 00 00 00 01. */
module Streams {
  import opened Splitter

  const SEPARATOR: seq<Byte> := [0, 0, 0, 1]

  /** The stream of the units, each followed by a separator. */
  function Join(units: seq<seq<Byte>>): seq<Byte> {
    if units == [] then [] else units[0] + SEPARATOR + Join(units[1..])
  }

  /** The bytes of the units without separators. */
  function Payload(units: seq<seq<Byte>>): seq<Byte> {
    if units == [] then [] else units[0] + Payload(units[1..])
  }

  /** No two zeros followed by 1, 2 or 3 inside the unit. */
  ghost predicate Clean(u: seq<Byte>) {
    forall e: nat :: !Marker(u, 0, e)
  }

  ghost predicate AllClean(units: seq<seq<Byte>>) {
    forall i | 0 <= i < |units| :: Clean(units[i])
  }

  /** The unit's type is one of those that end a frame. */
  predicate IsFrame(u: seq<Byte>) {
    u != [] && FrameHeader(u[0])
  }

  /** The index of the first unit that is a frame, or the number of units. */
  function FirstFrame(units: seq<seq<Byte>>): (j: nat)
    ensures j <= |units|
    ensures j < |units| ==> IsFrame(units[j])
    ensures forall i | 0 <= i < j :: !IsFrame(units[i])
  {
    if units == [] || IsFrame(units[0]) then 0 else 1 + FirstFrame(units[1..])
  }

  /** In terms of bytes: a unit is clean if nowhere in it two zeros stand before 1, 2 or 3. */
  lemma CleanBytes(u: seq<Byte>)
    ensures Clean(u) <==> forall i | 0 <= i < |u| - 2 :: !(u[i] == 0 && u[i + 1] == 0 && 1 <= u[i + 2] <= 3)
  {
    if Clean(u) {
      forall i | 0 <= i < |u| - 2
        ensures !(u[i] == 0 && u[i + 1] == 0 && 1 <= u[i + 2] <= 3)
      {
        assert !Marker(u, 0, i + 3);
      }
    }
    if forall i | 0 <= i < |u| - 2 :: !(u[i] == 0 && u[i + 1] == 0 && 1 <= u[i + 2] <= 3) {
      forall e: nat
        ensures !Marker(u, 0, e)
      {
        if 3 <= e <= |u| {
          assert !(u[e - 3] == 0 && u[e - 3 + 1] == 0 && 1 <= u[e - 3 + 2] <= 3);
        }
      }
    }
  }

  // A place where a unit starts: the call starts there too, or a separator is just behind.
  ghost predicate Boundary(s: seq<Byte>, from: nat, at: nat) {
    from <= at <= |s| && (at > from ==> s[at - 1] != 0)
  }

  // The unit u and its separator stand at `at`.
  ghost predicate StandsAt(s: seq<Byte>, at: nat, u: seq<Byte>) {
    at + |u| + 4 <= |s| && s[at..at + |u| + 4] == u + SEPARATOR
  }

  lemma MarkersInUnit(s: seq<Byte>, from: nat, at: nat, u: seq<Byte>, e: nat)
    requires Boundary(s, from, at) && StandsAt(s, at, u) && at < e <= at + |u| + 4
    ensures Marker(s, from, e) <==> e == at + |u| + 4 || (e - at <= |u| && Marker(u, 0, e - at))
  {
    var w := u + SEPARATOR;
    assert forall i | at <= i < at + |u| + 4 :: s[i] == w[i - at];
    assert forall i | 0 <= i < |u| :: w[i] == u[i];
    assert w[|u|] == 0 && w[|u| + 1] == 0 && w[|u| + 2] == 0 && w[|u| + 3] == 1;
  }

  /** The separator behind a unit is the first thing new_frame takes for one, exactly if the unit is clean. */
  lemma SeparatorFoundIffClean(s: seq<Byte>, from: nat, at: nat, u: seq<Byte>)
    requires Boundary(s, from, at) && StandsAt(s, at, u)
    ensures NextMarker(s, from, at) == at + |u| + 4 <==> Clean(u)
    ensures NextMarker(s, from, at) <= at + |u| + 4
  {
    var end := at + |u| + 4;
    MarkersInUnit(s, from, at, u, end);
    if Clean(u) {
      forall e: nat | at < e < end ensures !Marker(s, from, e) {
        MarkersInUnit(s, from, at, u, e);
      }
      NextMarkerIs(s, from, at, end);
    } else {
      var e: nat :| Marker(u, 0, e);
      MarkersInUnit(s, from, at, u, at + e);
    }
  }

  /** One clean unit is kept without its separator; a frame ends the call. */
  lemma SplitOfUnit(s: seq<Byte>, from: nat, at: nat, out: seq<Byte>, u: seq<Byte>, stale: Byte)
    requires Boundary(s, from, at) && StandsAt(s, at, u) && Clean(u)
    ensures var end := at + |u| + 4;
            Boundary(s, from, end)
            && Split(s, from, at, out, stale)
               == if IsFrame(u) then AfterSeparator(out + u, end) else Split(s, from, end, out + u, stale)
  {
    var end := at + |u| + 4;
    SeparatorFoundIffClean(s, from, at, u);
    hide Clean, Marker;
    var buffer := out + s[at..end];
    assert buffer == out + u + SEPARATOR;
    assert buffer[..|buffer| - 4] == out + u;
    assert s[at] == s[at..end][0] == if u == [] then 0 else u[0];
    assert s[end - 1] == s[at..end][|u| + 3] == 1;
  }

  lemma FirstUnitStands(s: seq<Byte>, at: nat, units: seq<seq<Byte>>)
    requires units != [] && at + |Join(units)| <= |s| && s[at..at + |Join(units)|] == Join(units)
    ensures StandsAt(s, at, units[0])
    ensures var end := at + |units[0]| + 4;
            && end + |Join(units[1..])| == at + |Join(units)|
            && s[end..end + |Join(units[1..])|] == Join(units[1..])
  {
    var u, rest := units[0], Join(units[1..]);
    assert Join(units) == (u + SEPARATOR) + rest;
    PartsOfSlice(s, at, u + SEPARATOR, rest);
  }

  lemma PartsOfSlice(s: seq<Byte>, at: nat, a: seq<Byte>, b: seq<Byte>)
    requires at + |a + b| <= |s| && s[at..at + |a + b|] == a + b
    ensures s[at..at + |a|] == a && s[at + |a|..at + |a| + |b|] == b
  {
    var w := s[at..at + |a + b|];
    assert s[at..at + |a|] == w[..|a|];
    assert s[at + |a|..at + |a| + |b|] == w[|a|..];
  }

  lemma FirstUnits(units: seq<seq<Byte>>, n: nat)
    requires 0 < n <= |units|
    ensures Join(units[..n]) == units[0] + SEPARATOR + Join(units[1..][..n - 1])
    ensures Payload(units[..n]) == units[0] + Payload(units[1..][..n - 1])
  {
    assert units[..n][1..] == units[1..][..n - 1];
  }

  /** One call from the start of a unit keeps the units without their separators up to the first frame. */
  lemma {:induction false} SplitOfUnits(s: seq<Byte>, from: nat, at: nat, out: seq<Byte>, units: seq<seq<Byte>>, stale: Byte)
    requires Boundary(s, from, at) && AllClean(units)
    requires at + |Join(units)| <= |s| && s[at..at + |Join(units)|] == Join(units)
    ensures Boundary(s, from, at + |Join(units)|)
    ensures var j := FirstFrame(units);
            Split(s, from, at, out, stale)
            == if j < |units| then AfterSeparator(out + Payload(units[..j + 1]), at + |Join(units[..j + 1])|)
               else Split(s, from, at + |Join(units)|, out + Payload(units), stale)
    decreases |units|
  {
    hide Split, Boundary, StandsAt, AllClean, Join, Clean, Payload;
    if units == [] {
      Nothing();
      assert out + [] == out;
    } else {
      var u, j := units[0], FirstFrame(units);
      FirstUnitStands(s, at, units);
      CleanParts(units);
      SplitOfUnit(s, from, at, out, u, stale);
      SplitOfUnits(s, from, at + |u| + 4, out + u, units[1..], stale);
      if j < |units| {
        FirstUnits(units, j + 1);
        var rest := Payload(units[1..][..j]);
        assert out + (u + rest) == out + u + rest;
        if j == 0 {
          assert units[1..][..0] == [];
          Nothing();
        }
      } else {
        PayloadFirst(units);
        assert out + (u + Payload(units[1..])) == out + u + Payload(units[1..]);
      }
    }
  }

  lemma Nothing()
    ensures Join([]) == [] && Payload([]) == [] && FrameCount([]) == 0
  {}

  lemma PayloadFirst(units: seq<seq<Byte>>)
    requires units != []
    ensures Payload(units) == units[0] + Payload(units[1..])
  {}

  lemma CleanParts(units: seq<seq<Byte>>)
    requires AllClean(units) && units != []
    ensures Clean(units[0]) && AllClean(units[1..])
  {}

  lemma {:induction false} JoinParts(a: seq<seq<Byte>>, b: seq<seq<Byte>>)
    ensures Join(a + b) == Join(a) + Join(b)
  {
    if a == [] {
      assert a + b == b;
    } else {
      JoinParts(a[1..], b);
      assert (a + b)[1..] == a[1..] + b;
      var u := a[0] + SEPARATOR;
      assert u + (Join(a[1..]) + Join(b)) == u + Join(a[1..]) + Join(b);
    }
  }

  lemma {:induction false} PayloadParts(a: seq<seq<Byte>>, b: seq<seq<Byte>>)
    ensures Payload(a + b) == Payload(a) + Payload(b)
  {
    hide Payload;
    if a == [] {
      Nothing();
      assert a + b == b;
    } else {
      PayloadParts(a[1..], b);
      PayloadFirst(a);
      PayloadFirst(a + b);
      assert (a + b)[1..] == a[1..] + b;
      assert a[0] + (Payload(a[1..]) + Payload(b)) == a[0] + Payload(a[1..]) + Payload(b);
    }
  }

  /** What a call does that starts at position p of the file. */
  function Call(s: seq<Byte>, p: nat, stale: Byte): Frame
    requires p <= |s|
  {
    Split(s, p, p, [], stale)
  }

  lemma CallUpToFirstFrame(s: seq<Byte>, p: nat, units: seq<seq<Byte>>, stale: Byte)
    requires p + |Join(units)| <= |s| && s[p..p + |Join(units)|] == Join(units) && AllClean(units)
    requires FirstFrame(units) < |units|
    ensures var n := FirstFrame(units) + 1;
            Call(s, p, stale) == AfterSeparator(Payload(units[..n]), p + |Join(units[..n])|)
  {
    SplitOfUnits(s, p, p, [], units, stale);
    var n := FirstFrame(units) + 1;
    assert [] + Payload(units[..n]) == Payload(units[..n]);
  }

  lemma FirstFrameIs(units: seq<seq<Byte>>, j: nat)
    requires j < |units| && IsFrame(units[j]) && forall i | 0 <= i < j :: !IsFrame(units[i])
    ensures FirstFrame(units) == j
  {}

  /** new_frame refines the splitter: from the start of a unit, with clean units ahead, a call returns the units up to
      and including the first whose type is one of 1 to 6, and leaves the file just behind its separator. */
  lemma CallReturnsUnits(s: seq<Byte>, p: nat, units: seq<seq<Byte>>, j: nat, stale: Byte)
    requires p + |Join(units)| <= |s| && s[p..p + |Join(units)|] == Join(units) && AllClean(units)
    requires j < |units| && units[j] != [] && 1 <= units[j][0] % 32 <= 6
    requires forall i | 0 <= i < j :: units[i] == [] || !(1 <= units[i][0] % 32 <= 6)
    ensures Call(s, p, stale) == AfterSeparator(Payload(units[..j + 1]), p + |Join(units[..j + 1])|)
  {
    forall i | 0 <= i <= j && units[i] != []
      ensures IsFrame(units[i]) <==> 1 <= units[i][0] % 32 <= 6
    {
      FrameTypes(units[i][0]);
    }
    FirstFrameIs(units, j);
    CallUpToFirstFrame(s, p, units, stale);
  }

  /** For a clean unit followed by a separator: the call returns exactly this unit if and only if its type, in the low five
      bits of its first byte, is one of 1 to 6. */
  lemma UnitReturnedIffFrame(s: seq<Byte>, p: nat, u: seq<Byte>, stale: Byte)
    requires p <= |s| && StandsAt(s, p, u) && Clean(u)
    ensures Call(s, p, stale) == AfterSeparator(u, p + |u| + 4) <==> u != [] && 1 <= u[0] % 32 <= 6
  {
    hide Split;
    if u != [] {
      FrameTypes(u[0]);
    }
    SplitOfUnit(s, p, p, [], u, stale);
    assert [] + u == u;
  }

  /** For a frame followed by a separator: the call returns exactly the frame, if and only if the frame is clean. */
  lemma FrameReturnedIffClean(s: seq<Byte>, p: nat, u: seq<Byte>, stale: Byte)
    requires p <= |s| && StandsAt(s, p, u) && IsFrame(u)
    ensures Call(s, p, stale) == AfterSeparator(u, p + |u| + 4) <==> Clean(u)
  {
    SeparatorFoundIffClean(s, p, p, u);
    var e := NextMarker(s, p, p);
    assert s[p] == s[p..p + |u| + 4][0] == (u + SEPARATOR)[0] == u[0];
    var buffer := [] + s[p..e];
    if e == p + |u| + 4 {
      assert buffer == u + SEPARATOR;
      assert buffer[..|buffer| - 4] == u;
    }
  }

  /** A unit with an emulation prevention byte is not clean, so it is never returned whole. */
  lemma EmulationPreventionIsNotClean(a: seq<Byte>, b: seq<Byte>)
    ensures !Clean(a + [0, 0, 3] + b)
  {
    assert Marker(a + [0, 0, 3] + b, 0, |a| + 3);
  }

  function Zeros(z: nat): (r: seq<Byte>)
    ensures |r| == z
  {
    seq(z, _ => 0)
  }

  /** A frame and a start code of any length: z zeros, at least two, and a one. The call removes four bytes, so it gives
      back the frame if and only if z is three; one zero less costs the frame its last byte, and every zero more, which
      Annex B of ITU-T H.264 allows, is put behind it. */
  lemma StartCode(s: seq<Byte>, p: nat, u: seq<Byte>, z: nat, stale: Byte)
    requires z >= 2 && p + |u| + z + 1 <= |s| && s[p..p + |u| + z + 1] == u + Zeros(z) + [1]
    requires IsFrame(u) && Clean(u)
    ensures Call(s, p, stale) == AfterSeparator((u + Zeros(z))[..|u| + z - 3], p + |u| + z + 1)
    ensures Call(s, p, stale) == AfterSeparator(u, p + |u| + z + 1) <==> z == 3
  {
    var w := u + Zeros(z) + [1];
    var end := p + |u| + z + 1;
    assert forall i | p <= i < end :: s[i] == w[i - p];
    forall e: nat | p < e < end ensures !Marker(s, p, e) {
      assert e <= p + |u| ==> (Marker(s, p, e) <==> Marker(u, 0, e - p));
    }
    NextMarkerIs(s, p, p, end);
    assert [] + s[p..end] == w;
    assert w[..|w| - 4] == (u + Zeros(z))[..|u| + z - 3];
    assert s[p] == u[0];
    assert z == 3 ==> (u + Zeros(z))[..|u| + z - 3] == u;
  }

  /** With the three byte separator 00 00 01 the call removes the last byte of the frame as well. */
  lemma ShortSeparatorLosesByte(s: seq<Byte>, p: nat, u: seq<Byte>, stale: Byte)
    requires p + |u| + 3 <= |s| && s[p..p + |u| + 3] == u + [0, 0, 1]
    requires IsFrame(u) && Clean(u)
    ensures Call(s, p, stale) == AfterSeparator(u[..|u| - 1], p + |u| + 3)
  {
    assert u + Zeros(2) + [1] == u + [0, 0, 1];
    StartCode(s, p, u, 2, stale);
    assert (u + Zeros(2))[..|u| - 1] == u[..|u| - 1];
  }

  /** When no separator follows, the call takes the rest of the file, and its last byte once more. */
  lemma LastCallDuplicatesByte(s: seq<Byte>, p: nat, stale: Byte)
    requires p < |s| && NoMarker(s, p, p, |s|)
    ensures Call(s, p, stale) == AtEnd(s[p..] + [s[|s| - 1]])
  {
    var e := NextMarker(s, p, p);
    assert e > |s|;
    assert [] + s[p..] == s[p..];
  }

  // Repeated calls.

  /** The calls from position p on return the frames one after the other, and leave the file at q. Each call has a stale
      byte of its own. */
  ghost predicate Calls(s: seq<Byte>, p: nat, frames: seq<seq<Byte>>, q: nat, stales: seq<Byte>)
    decreases |frames|
  {
    p <= |s| && |stales| == |frames| &&
    if frames == [] then q == p
    else match Call(s, p, stales[0])
      case AfterSeparator(bytes, next) => bytes == frames[0] && Calls(s, next, frames[1..], q, stales[1..])
      case _ => false
  }

  function FrameCount(units: seq<seq<Byte>>): nat {
    if units == [] then 0 else (if IsFrame(units[0]) then 1 else 0) + FrameCount(units[1..])
  }

  lemma {:induction false} FrameCountParts(a: seq<seq<Byte>>, b: seq<seq<Byte>>)
    ensures FrameCount(a + b) == FrameCount(a) + FrameCount(b)
  {
    if a == [] {
      assert a + b == b;
    } else {
      FrameCountParts(a[1..], b);
      assert (a + b)[1..] == a[1..] + b;
    }
  }

  lemma FrameCountCut(units: seq<seq<Byte>>, k: nat)
    requires k <= |units|
    ensures FrameCount(units) == FrameCount(units[..k]) + FrameCount(units[k..])
  {
    assert units == units[..k] + units[k..];
    FrameCountParts(units[..k], units[k..]);
  }

  lemma {:induction false} UpToFirstFrame(units: seq<seq<Byte>>)
    ensures var j := FirstFrame(units); FrameCount(units[..j]) == 0 && (j < |units| ==> FrameCount(units[..j + 1]) == 1)
    ensures FirstFrame(units) == |units| <==> FrameCount(units) == 0
  {
    if units != [] && !IsFrame(units[0]) {
      UpToFirstFrame(units[1..]);
      var j := FirstFrame(units);
      assert units[..j][1..] == units[1..][..j - 1];
      assert j < |units| ==> units[..j + 1][1..] == units[1..][..j];
    } else if units != [] {
      assert units[..1][1..] == [];
    }
  }

  /** A stream of units, and a last one that no separator follows. */
  ghost predicate StreamFrom(s: seq<Byte>, p: nat, units: seq<seq<Byte>>, last: seq<Byte>) {
    p <= |s| && s[p..] == Join(units) + last && AllClean(units) && Clean(last)
  }

  lemma StreamAhead(s: seq<Byte>, p: nat, units: seq<seq<Byte>>, last: seq<Byte>, n: nat)
    requires StreamFrom(s, p, units, last) && n <= |units|
    ensures p + |Join(units[..n])| <= |s|
    ensures StreamFrom(s, p + |Join(units[..n])|, units[n..], last)
    ensures s[p..p + |Join(units[..n])|] == Join(units[..n])
  {
    JoinParts(units[..n], units[n..]);
    assert units[..n] + units[n..] == units;
    var d := |Join(units[..n])|;
    assert s[p..p + d] == s[p..][..d] == Join(units[..n]);
    assert s[p + d..] == s[p..][d..] == Join(units[n..]) + last;
  }

  lemma NothingInLast(s: seq<Byte>, p: nat, q: nat, last: seq<Byte>)
    requires p <= q <= |s| && s[q..] == last && Clean(last) && Boundary(s, p, q)
    ensures NextMarker(s, p, q) == |s| + 1
  {
    assert forall i | q <= i < |s| :: s[i] == last[i - q];
    forall e: nat | q < e <= |s| ensures !Marker(s, p, e) {
      assert !Marker(last, 0, e - q);
    }
  }

  lemma WholeStream(s: seq<Byte>, p: nat, units: seq<seq<Byte>>, last: seq<Byte>)
    requires StreamFrom(s, p, units, last)
    ensures var q := p + |Join(units)|; q <= |s| && s[p..q] == Join(units) && s[q..] == last
    ensures AllClean(units) && Clean(last)
  {
    var d := |Join(units)|;
    assert s[p..p + d] == s[p..][..d];
    assert s[p + d..] == s[p..][d..];
  }

  lemma SplitAtEnd(s: seq<Byte>, from: nat, at: nat, out: seq<Byte>, last: seq<Byte>, stale: Byte)
    requires from <= at <= |s| && s[at..] == last && NextMarker(s, from, at) == |s| + 1
    ensures Split(s, from, at, out, stale) == AtEnd(out + last + [if |s| > from then s[|s| - 1] else stale])
  {}

  lemma NoFrameBefore(s: seq<Byte>, p: nat, q: nat, units: seq<seq<Byte>>, last: seq<Byte>, stale: Byte)
    requires q == p + |Join(units)| <= |s| && s[p..q] == Join(units) && s[q..] == last
    requires AllClean(units) && Clean(last) && FirstFrame(units) == |units|
    ensures Split(s, p, p, [], stale) == AtEnd([] + Payload(units) + last + [if |s| > p then s[|s| - 1] else stale])
  {
    hide Join, Clean, AllClean, Payload, Split, FirstFrame, NextMarker;
    SplitOfUnits(s, p, p, [], units, stale);
    NothingInLast(s, p, q, last);
    SplitAtEnd(s, p, q, [] + Payload(units), last, stale);
  }

  /** With no frame ahead a call reaches the end of the file. */
  lemma NoFrameAhead(s: seq<Byte>, p: nat, units: seq<seq<Byte>>, last: seq<Byte>, stale: Byte)
    requires StreamFrom(s, p, units, last) && FirstFrame(units) == |units|
    ensures Call(s, p, stale) == AtEnd(Payload(units) + last + [if |s| > p then s[|s| - 1] else stale])
  {
    hide StreamFrom, Join, Clean, AllClean, Payload, Split, FirstFrame;
    WholeStream(s, p, units, last);
    NoFrameBefore(s, p, p + |Join(units)|, units, last, stale);
    assert [] + Payload(units) == Payload(units);
  }

  function Concat(frames: seq<seq<Byte>>): seq<Byte> {
    if frames == [] then [] else frames[0] + Concat(frames[1..])
  }

  lemma CallFromStream(s: seq<Byte>, p: nat, units: seq<seq<Byte>>, last: seq<Byte>, stale: Byte)
    requires StreamFrom(s, p, units, last) && FirstFrame(units) < |units|
    ensures var k := FirstFrame(units) + 1;
            var q := p + |Join(units[..k])|;
            && q <= |s| && StreamFrom(s, q, units[k..], last) && FrameCount(units[..k]) == 1
            && Call(s, p, stale) == AfterSeparator(Payload(units[..k]), q)
  {
    WholeStream(s, p, units, last);
    CallUpToFirstFrame(s, p, units, stale);
    StreamAhead(s, p, units, last, FirstFrame(units) + 1);
    UpToFirstFrame(units);
  }

  lemma JoinCounts(units: seq<seq<Byte>>, k: nat, m: nat)
    requires k + m <= |units|
    ensures Join(units[..k + m]) == Join(units[..k]) + Join(units[k..][..m])
    ensures Payload(units[..k + m]) == Payload(units[..k]) + Payload(units[k..][..m])
  {
    assert units[..k + m] == units[..k] + units[k..][..m];
    JoinParts(units[..k], units[k..][..m]);
    PayloadParts(units[..k], units[k..][..m]);
  }

  /** The units from lo to hi are what a frame is made of: the last of them is a frame unit, and no other. */
  ghost predicate FrameOf(frame: seq<Byte>, units: seq<seq<Byte>>, lo: nat, hi: nat) {
    && lo < hi <= |units| && frame == Payload(units[lo..hi])
    && IsFrame(units[hi - 1]) && forall i | lo <= i < hi - 1 :: !IsFrame(units[i])
  }

  /** The places where the units are cut into frames. */
  ghost predicate Cuts(cuts: seq<nat>, frames: seq<seq<Byte>>, units: seq<seq<Byte>>) {
    && |cuts| == |frames| + 1 && cuts[0] == 0
    && forall i | 0 <= i < |frames| :: FrameOf(frames[i], units, cuts[i], cuts[i + 1])
  }

  lemma NoCuts(units: seq<seq<Byte>>)
    ensures Cuts([0], [], units)
  {}

  lemma FrameOfRest(frame: seq<Byte>, units: seq<seq<Byte>>, k: nat, lo: nat, hi: nat)
    requires k <= |units| && FrameOf(frame, units[k..], lo, hi)
    ensures FrameOf(frame, units, k + lo, k + hi)
  {
    hide IsFrame, Payload;
    assert units[k..][lo..hi] == units[k + lo..k + hi];
    assert units[k..][hi - 1] == units[k + hi - 1];
    forall i | k + lo <= i < k + hi - 1
      ensures !IsFrame(units[i])
    {
      assert units[i] == units[k..][i - k];
    }
  }

  // One frame before those of the rest.
  lemma OneMoreCut(frame: seq<Byte>, units: seq<seq<Byte>>, k: nat, cuts: seq<nat>, frames: seq<seq<Byte>>) returns (all: seq<nat>)
    requires k <= |units| && FrameOf(frame, units, 0, k) && Cuts(cuts, frames, units[k..])
    ensures Cuts(all, [frame] + frames, units) && all[|frames| + 1] == k + cuts[|frames|]
  {
    hide FrameOf;
    var shifted := seq(|cuts|, i requires 0 <= i < |cuts| => k + cuts[i]);
    all := [0] + shifted;
    var fs := [frame] + frames;
    forall i | 0 <= i < |fs|
      ensures FrameOf(fs[i], units, all[i], all[i + 1])
    {
      if i > 0 {
        FrameOfRest(frames[i - 1], units, k, cuts[i - 1], cuts[i]);
      }
    }
  }

  /** Conservation: whatever number of calls has ended at a separator, their frames are consecutive pieces of the units
      read so far without their separators, each piece up to and including a frame unit and holding no other; no byte is
      lost, added or moved. */
  lemma {:induction false} Conservation(s: seq<Byte>, p: nat, units: seq<seq<Byte>>, last: seq<Byte>, frames: seq<seq<Byte>>, q: nat,
                                        stales: seq<Byte>) returns (cuts: seq<nat>)
    requires StreamFrom(s, p, units, last) && Calls(s, p, frames, q, stales)
    ensures Cuts(cuts, frames, units)
    ensures var n := cuts[|frames|]; n <= |units| && q == p + |Join(units[..n])| && Concat(frames) == Payload(units[..n])
    decreases |frames|
  {
    hide StreamFrom, Join, Payload, Call, Cuts, FrameOf, IsFrame;
    if frames == [] {
      cuts := [0];
      NoCuts(units);
      assert units[..0] == [];
      Nothing();
    } else if FirstFrame(units) == |units| {
      NoFrameAhead(s, p, units, last, stales[0]);
      assert false;
    } else {
      var k := FirstFrame(units) + 1;
      CallFromStream(s, p, units, last, stales[0]);
      var rest := Conservation(s, p + |Join(units[..k])|, units[k..], last, frames[1..], q, stales[1..]);
      FirstPiece(units);
      RestIsCut(rest, frames[1..], units[k..]);
      cuts := OneMoreCut(frames[0], units, k, rest, frames[1..]);
      assert [frames[0]] + frames[1..] == frames;
      JoinCounts(units, k, rest[|frames| - 1]);
    }
  }

  lemma FirstPiece(units: seq<seq<Byte>>)
    requires FirstFrame(units) < |units|
    ensures var k := FirstFrame(units) + 1; FrameOf(Payload(units[..k]), units, 0, k)
  {
    assert units[0..FirstFrame(units) + 1] == units[..FirstFrame(units) + 1];
  }

  lemma RestIsCut(cuts: seq<nat>, frames: seq<seq<Byte>>, units: seq<seq<Byte>>)
    requires Cuts(cuts, frames, units)
    ensures |cuts| == |frames| + 1 && cuts[|frames|] <= |units|
  {
    if frames != [] {
      assert FrameOf(frames[|frames| - 1], units, cuts[|frames| - 1], cuts[|frames|]);
    }
  }

  lemma NoCalls(s: seq<Byte>, p: nat)
    requires p <= |s|
    ensures Calls(s, p, [], p, [])
  {}

  lemma OneMoreCall(s: seq<Byte>, p: nat, bytes: seq<Byte>, next: nat, frames: seq<seq<Byte>>, q: nat, stales: seq<Byte>)
    requires p <= |s| && stales != []
    requires Call(s, p, stales[0]) == AfterSeparator(bytes, next) && Calls(s, next, frames, q, stales[1..])
    ensures Calls(s, p, [bytes] + frames, q, stales)
  {
    assert ([bytes] + frames)[1..] == frames;
  }

  /** And as many calls end at a separator as there are frame units in the stream; the one after them reaches the end of
      the file. */
  lemma {:induction false} AllFramesReturned(s: seq<Byte>, p: nat, units: seq<seq<Byte>>, last: seq<Byte>, stales: seq<Byte>)
    returns (frames: seq<seq<Byte>>, q: nat)
    requires StreamFrom(s, p, units, last) && |stales| == FrameCount(units)
    ensures Calls(s, p, frames, q, stales) && |frames| == FrameCount(units)
    ensures q <= |s| && forall stale: Byte :: Call(s, q, stale).AtEnd?
    decreases |units|
  {
    hide StreamFrom, Join, Payload, FrameCount, Split, FirstFrame, Calls, IsFrame, Call, Clean, AllClean;
    WholeStream(s, p, units, last);
    NoCalls(s, p);
    UpToFirstFrame(units);
    if FirstFrame(units) == |units| {
      frames, q := [], p;
      forall stale: Byte
        ensures Call(s, q, stale).AtEnd?
      {
        NoFrameAhead(s, p, units, last, stale);
      }
    } else {
      var k := FirstFrame(units) + 1;
      FrameCountCut(units, k);
      CallFromStream(s, p, units, last, stales[0]);
      var rest;
      rest, q := AllFramesReturned(s, p + |Join(units[..k])|, units[k..], last, stales[1..]);
      frames := [Payload(units[..k])] + rest;
      OneMoreCall(s, p, Payload(units[..k]), p + |Join(units[..k])|, rest, q, stales);
    }
  }

  // The loop of read_file: calls until the end of the file, or until there is no stale byte left for another call.

  /** What the calls leave in the buffer, one after the other. */
  function Frames(s: seq<Byte>, p: nat, stales: seq<Byte>): (frames: seq<seq<Byte>>)
    requires p <= |s|
    ensures |frames| <= |stales|
    decreases |stales|
  {
    if stales == [] then []
    else match Call(s, p, stales[0])
      case AfterSeparator(bytes, next) => [bytes] + Frames(s, next, stales[1..])
      case AtEnd(bytes) => [bytes]
      case Underrun => []
  }

  /** All these calls stay inside a buffer of the given size. */
  ghost predicate Inside(s: seq<Byte>, p: nat, stales: seq<Byte>, size: nat)
    requires p <= |s|
    decreases |stales|
  {
    stales != [] ==>
      && Peak(s, p, p, 0) <= size
      && match Call(s, p, stales[0])
         case AfterSeparator(_, next) => Inside(s, next, stales[1..], size)
         case AtEnd(_) => true
         case Underrun => false
  }

  lemma PeakOfUnit(s: seq<Byte>, from: nat, at: nat, kept: nat, u: seq<Byte>)
    requires Boundary(s, from, at) && StandsAt(s, at, u) && Clean(u)
    ensures var end, n := at + |u| + 4, kept + |u| + 4;
            Boundary(s, from, end)
            && Peak(s, from, at, kept)
               == if IsFrame(u) || Peak(s, from, end, kept + |u|) <= n then n else Peak(s, from, end, kept + |u|)
  {
    var end := at + |u| + 4;
    SeparatorFoundIffClean(s, from, at, u);
    hide Clean, Marker;
    assert s[at] == s[at..end][0] == if u == [] then 0 else u[0];
    assert s[end - 1] == s[at..end][|u| + 3] == 1;
  }

  /** Up to the first frame a call needs room for the frame it returns and a separator. */
  lemma {:induction false} PeakOfUnits(s: seq<Byte>, from: nat, at: nat, kept: nat, units: seq<seq<Byte>>)
    requires Boundary(s, from, at) && AllClean(units)
    requires at + |Join(units)| <= |s| && s[at..at + |Join(units)|] == Join(units)
    ensures FirstFrame(units) < |units| ==>
              Peak(s, from, at, kept) == kept + |Payload(units[..FirstFrame(units) + 1])| + 4
    ensures FirstFrame(units) == |units| ==>
              var q, n := at + |Join(units)|, kept + |Payload(units)|;
              && Boundary(s, from, q)
              && Peak(s, from, at, kept)
                 == if units != [] && Peak(s, from, q, n) < n + 4 then n + 4 else Peak(s, from, q, n)
    decreases |units|
  {
    hide Peak, Boundary, StandsAt, AllClean, Join, Clean, Payload;
    if units == [] {
      Nothing();
    } else {
      var u, j := units[0], FirstFrame(units);
      FirstUnitStands(s, at, units);
      CleanParts(units);
      PeakOfUnit(s, from, at, kept, u);
      PeakOfUnits(s, from, at + |u| + 4, kept + |u|, units[1..]);
      if j < |units| {
        FirstUnits(units, j + 1);
        if j == 0 {
          assert units[1..][..0] == [];
          Nothing();
        }
      } else {
        PayloadFirst(units);
        if |units| == 1 {
          assert units[1..] == [];
          Nothing();
        }
      }
    }
  }

  /** The room the last call needs, with the units `rest` and `last` ahead and no frame among them. */
  function LastRoom(rest: seq<seq<Byte>>, last: seq<Byte>): nat {
    var n := |Payload(rest)|;
    if rest != [] && |last| < 3 then n + 4 else n + |last| + 1
  }

  lemma LastPeak(s: seq<Byte>, p: nat, units: seq<seq<Byte>>, last: seq<Byte>)
    requires StreamFrom(s, p, units, last) && FirstFrame(units) == |units|
    ensures Peak(s, p, p, 0) == LastRoom(units, last)
  {
    hide Join, Clean, AllClean, Payload, StreamFrom, FirstFrame;
    WholeStream(s, p, units, last);
    PeakOfUnits(s, p, p, 0, units);
    var q := p + |Join(units)|;
    NothingInLast(s, p, q, last);
    PeakOfLast(s, p, q, |Payload(units)|, |s| + 1);
    assert |last| == |s| - q;
    if units == [] {
      Nothing();
    }
  }

  lemma FirstPeak(s: seq<Byte>, p: nat, units: seq<seq<Byte>>, last: seq<Byte>)
    requires StreamFrom(s, p, units, last) && FirstFrame(units) < |units|
    ensures Peak(s, p, p, 0) == |Payload(units[..FirstFrame(units) + 1])| + 4
  {
    hide Join, Clean, AllClean, Payload, StreamFrom, FirstFrame;
    WholeStream(s, p, units, last);
    PeakOfUnits(s, p, p, 0, units);
  }

  // What the loop leaves behind a stream when it stops: `n` frames, and a last call if it had one left.
  ghost predicate Recorded(s: seq<Byte>, p: nat, units: seq<seq<Byte>>, last: seq<Byte>, stales: seq<Byte>, cuts: seq<nat>, n: nat)
    requires p <= |s|
  {
    var frames := Frames(s, p, stales);
    && n == (if |stales| <= FrameCount(units) then |stales| else FrameCount(units)) <= |frames|
    && Cuts(cuts, frames[..n], units) && cuts[n] <= |units| && Concat(frames[..n]) == Payload(units[..cuts[n]])
    && var rest, q := units[cuts[n]..], p + |Join(units[..cuts[n]])|;
       if |stales| == n then |frames| == n
       else |frames| == n + 1 && frames[n] == Payload(rest) + last + [if |s| > q then s[|s| - 1] else stales[n]]
  }

  lemma NothingRecorded(s: seq<Byte>, p: nat, units: seq<seq<Byte>>, last: seq<Byte>)
    requires p <= |s|
    ensures Recorded(s, p, units, last, [], [0], 0)
  {
    hide Call, FrameOf, FrameCount;
    NoCuts(units);
    assert Frames(s, p, [])[..0] == [] && units[..0] == [];
  }

  lemma LastRecorded(s: seq<Byte>, p: nat, units: seq<seq<Byte>>, last: seq<Byte>, stales: seq<Byte>)
    requires p <= |s| && stales != [] && FrameCount(units) == 0
    requires Call(s, p, stales[0]) == AtEnd(Payload(units) + last + [if |s| > p then s[|s| - 1] else stales[0]])
    ensures Recorded(s, p, units, last, stales, [0], 0)
  {
    hide Call, FrameOf, FrameCount, Cuts;
    NoCuts(units);
    assert Frames(s, p, stales)[..0] == [] && units[..0] == [] && units[0..] == units;
    Nothing();
  }

  // The frames of the rest behind one frame.
  lemma OneMoreRecorded(s: seq<Byte>, p: nat, units: seq<seq<Byte>>, last: seq<Byte>, stales: seq<Byte>, k: nat, rest: seq<nat>, m: nat)
    returns (cuts: seq<nat>)
    requires 0 < k <= |units| && stales != [] && FrameOf(Payload(units[..k]), units, 0, k) && FrameCount(units[..k]) == 1
    requires var q := p + |Join(units[..k])|;
             && p <= |s| && q <= |s| && Call(s, p, stales[0]) == AfterSeparator(Payload(units[..k]), q)
             && Recorded(s, q, units[k..], last, stales[1..], rest, m)
    ensures Recorded(s, p, units, last, stales, cuts, m + 1) && |rest| == m + 1 && |cuts| == m + 2 && cuts[m + 1] == k + rest[m]
    ensures rest[m] <= |units| - k && units[cuts[m + 1]..] == units[k..][rest[m]..]
    ensures var q := p + |Join(units[..k])|;
            && m <= |Frames(s, q, stales[1..])|
            && Frames(s, p, stales) == [Payload(units[..k])] + Frames(s, q, stales[1..])
  {
    hide Call, FrameOf, FrameCount, Cuts, Payload, Join;
    var q, b := p + |Join(units[..k])|, Payload(units[..k]);
    var frames := Frames(s, q, stales[1..]);
    FrameCountCut(units, k);
    CutsLength(rest, frames[..m], units[k..]);
    cuts := OneMoreCut(b, units, k, rest, frames[..m]);
    CutsLength(cuts, [b] + frames[..m], units);
    assert Frames(s, p, stales) == [b] + frames;
    assert ([b] + frames)[..m + 1] == [b] + frames[..m];
    JoinCounts(units, k, rest[m]);
    ConcatFirst(b, frames[..m]);
  }

  lemma CutsLength(cuts: seq<nat>, frames: seq<seq<Byte>>, units: seq<seq<Byte>>)
    requires Cuts(cuts, frames, units)
    ensures |cuts| == |frames| + 1
  {}

  lemma ConcatFirst(b: seq<Byte>, frames: seq<seq<Byte>>)
    ensures Concat([b] + frames) == b + Concat(frames)
  {
    assert ([b] + frames)[1..] == frames;
  }

  /** There is room for the first n frames, each with a separator, and for what a further call needs if there is one. */
  ghost predicate RoomFor(frames: seq<seq<Byte>>, n: nat, more: bool, need: nat, size: nat)
    requires n <= |frames|
  {
    (forall i | 0 <= i < n :: |frames[i]| + 4 <= size) && (more ==> need <= size)
  }

  lemma RoomForOneMore(frame: seq<Byte>, frames: seq<seq<Byte>>, n: nat, more: bool, need: nat, size: nat)
    requires n <= |frames|
    ensures RoomFor([frame] + frames, n + 1, more, need, size) <==> |frame| + 4 <= size && RoomFor(frames, n, more, need, size)
  {
    var all := [frame] + frames;
    assert all[0] == frame && forall i | 0 < i <= n :: all[i] == frames[i - 1];
    assert forall i | 0 <= i < n :: frames[i] == all[i + 1];
  }

  /** The loop on a stream of clean units: the frames it records are those of the stream, in order, and then the rest of
      the file; and all its calls stay inside the buffer if and only if every frame fits in with a separator, and so does
      the rest. */
  lemma {:induction false} FramesOfStream(s: seq<Byte>, p: nat, units: seq<seq<Byte>>, last: seq<Byte>, stales: seq<Byte>, size: nat)
    returns (cuts: seq<nat>, n: nat)
    requires StreamFrom(s, p, units, last)
    ensures Recorded(s, p, units, last, stales, cuts, n)
    ensures Inside(s, p, stales, size) <==>
            RoomFor(Frames(s, p, stales), n, |stales| > n, LastRoom(units[cuts[n]..], last), size)
    decreases |stales|
  {
    hide StreamFrom, Join, Payload, Call, Cuts, FrameOf, IsFrame, FrameCount, FirstFrame, LastRoom, Peak, Recorded;
    WholeStream(s, p, units, last);
    UpToFirstFrame(units);
    assert units[0..] == units;
    if stales == [] {
      cuts, n := [0], 0;
      NothingRecorded(s, p, units, last);
    } else if FirstFrame(units) == |units| {
      cuts, n := [0], 0;
      LastPeak(s, p, units, last);
      NoFrameAhead(s, p, units, last, stales[0]);
      LastRecorded(s, p, units, last, stales);
    } else {
      hide RoomFor;
      var k := FirstFrame(units) + 1;
      FirstPeak(s, p, units, last);
      CallFromStream(s, p, units, last, stales[0]);
      FirstPiece(units);
      var q := p + |Join(units[..k])|;
      var rest, m := FramesOfStream(s, q, units[k..], last, stales[1..], size);
      cuts := OneMoreRecorded(s, p, units, last, stales, k, rest, m);
      n := m + 1;
      RoomForOneMore(Payload(units[..k]), Frames(s, q, stales[1..]), m, |stales| > n, LastRoom(units[cuts[n]..], last), size);
    }
  }
}
