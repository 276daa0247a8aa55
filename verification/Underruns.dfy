/** When a call of new_frame moves its index below zero: it takes four bytes away for every marker, and a marker may be
    only three bytes behind the one before. */
module Underruns {
  import opened Splitter

  /** Where the k-th marker behind `at` ends, or |s| + 1 if there are fewer. */
  function Sep(s: seq<Byte>, from: nat, at: nat, k: nat): (e: nat)
    requires at <= |s|
    ensures at <= e <= |s| + 1
    decreases k
  {
    if k == 0 then at
    else
      var e := NextMarker(s, from, at);
      if e > |s| then e else Sep(s, from, e, k - 1)
  }

  /** None of the first k units is a frame. */
  ghost predicate NoFrames(s: seq<Byte>, from: nat, at: nat, k: nat)
    requires at <= |s|
  {
    forall j | 0 <= j < k :: Sep(s, from, at, j) < |s| ==> !FrameHeader(s[Sep(s, from, at, j)])
  }

  /** The first k units, none of the first k - 1 being a frame, and the bytes kept before have fewer than 4 * k bytes. */
  ghost predicate TooShort(s: seq<Byte>, from: nat, at: nat, kept: nat, k: nat)
    requires at <= |s|
  {
    k > 0 && Sep(s, from, at, k) <= |s| && kept + Sep(s, from, at, k) - at < 4 * k && NoFrames(s, from, at, k - 1)
  }

  // The k-th unit behind the next marker is the one after it.
  lemma Shifted(s: seq<Byte>, from: nat, at: nat, kept: nat, k: nat)
    requires at <= |s| && k > 0 && NextMarker(s, from, at) <= |s|
    requires !FrameHeader(s[at]) && kept + NextMarker(s, from, at) - at >= 4
    ensures var e := NextMarker(s, from, at);
            TooShort(s, from, at, kept, k + 1) <==> TooShort(s, from, e, kept + e - at - 4, k)
  {
    var e := NextMarker(s, from, at);
    forall j | 0 <= j < k
      ensures Sep(s, from, at, j + 1) == Sep(s, from, e, j)
    {
    }
    assert Sep(s, from, at, k + 1) == Sep(s, from, e, k);
    if NoFrames(s, from, at, k) {
      forall j | 0 <= j < k - 1
        ensures Sep(s, from, e, j) < |s| ==> !FrameHeader(s[Sep(s, from, e, j)])
      {
        assert Sep(s, from, at, j + 1) == Sep(s, from, e, j);
      }
    }
    if NoFrames(s, from, e, k - 1) {
      forall j | 0 <= j < k
        ensures Sep(s, from, at, j) < |s| ==> !FrameHeader(s[Sep(s, from, at, j)])
      {
        if j > 0 {
          assert Sep(s, from, at, j) == Sep(s, from, e, j - 1);
        }
      }
    }
  }

  // The first unit, where the call ends with it.
  lemma FirstUnit(s: seq<Byte>, from: nat, at: nat, kept: nat, k: nat)
    requires at <= |s|
    ensures NextMarker(s, from, at) > |s| ==> !TooShort(s, from, at, kept, k)
    ensures var e := NextMarker(s, from, at);
            e <= |s| ==> (TooShort(s, from, at, kept, 1) <==> kept + e - at < 4)
    ensures NextMarker(s, from, at) <= |s| && FrameHeader(s[at]) && k > 1 ==> !TooShort(s, from, at, kept, k)
  {
    assert Sep(s, from, at, 0) == at;
  }

  /** From the unit at `at` on, with `out` in the buffer, the call moves its index below zero if and only if for some k
      the first k units and what is in the buffer have fewer than 4 * k bytes, and no unit before the k-th is a frame. */
  lemma {:induction false} SplitUnderruns(s: seq<Byte>, from: nat, at: nat, out: seq<Byte>, stale: Byte)
    requires from <= at <= |s|
    ensures Split(s, from, at, out, stale).Underrun? <==> exists k: nat :: TooShort(s, from, at, |out|, k)
    decreases |s| - at
  {
    hide TooShort, Sep, NextMarker;
    var e, n := NextMarker(s, from, at), |out| + NextMarker(s, from, at) - at;
    forall k: nat
      ensures e > |s| ==> !TooShort(s, from, at, |out|, k)
      ensures e <= |s| && FrameHeader(s[at]) && k > 1 ==> !TooShort(s, from, at, |out|, k)
    {
      FirstUnit(s, from, at, |out|, k);
    }
    FirstUnit(s, from, at, |out|, 1);
    NotNone(s, from, at, |out|);
    if e <= |s| && n >= 4 && !FrameHeader(s[at]) {
      var rest := (out + s[at..e])[..n - 4];
      SplitUnderruns(s, from, e, rest, stale);
      if k: nat :| TooShort(s, from, at, |out|, k) {
        assert k > 1;
        Shifted(s, from, at, |out|, k - 1);
      }
      if k: nat :| TooShort(s, from, e, |rest|, k) {
        NotNone(s, from, e, |rest|);
        Shifted(s, from, at, |out|, k);
      }
    }
  }

  lemma NotNone(s: seq<Byte>, from: nat, at: nat, kept: nat)
    requires at <= |s|
    ensures !TooShort(s, from, at, kept, 0)
  {}

  /** A stream that opens with a three byte start code. */
  lemma ShortCodeUnderruns(stale: Byte)
    ensures Split([0, 0, 1, 0x65], 0, 0, [], stale) == Underrun
  {
    var s: seq<Byte> := [0, 0, 1, 0x65];
    NextMarkerIs(s, 0, 0, 3);
  }

  /** Every marker the call can see has a third zero in front. */
  ghost predicate LongCodes(s: seq<Byte>, from: nat) {
    forall e: nat | Marker(s, from, e) :: e >= from + 4 && s[e - 4] == 0
  }

  /** With four byte start codes only, no call moves its index below zero. */
  lemma {:induction false} LongCodesNeverUnderrun(s: seq<Byte>, from: nat, at: nat, out: seq<Byte>, stale: Byte)
    requires from <= at <= |s| && LongCodes(s, from) && (at > from ==> s[at - 1] != 0)
    ensures !Split(s, from, at, out, stale).Underrun?
    decreases |s| - at
  {
    var e := NextMarker(s, from, at);
    if e <= |s| {
      assert Marker(s, from, e);
      assert e - 4 >= at;
      var n := |out| + e - at;
      if !FrameHeader(s[at]) {
        LongCodesNeverUnderrun(s, from, e, (out + s[at..e])[..n - 4], stale);
      }
    }
  }
}
