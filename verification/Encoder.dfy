/** The encoder's file, its buffer, and new_frame. */
module Encoder {
  import opened Splitter
  import Streams

  /** How a call of new_frame ends: it returns, it moves its index below zero, or it stores behind the buffer. The code
      checks for neither of the last two; the model's run ends there. */
  datatype Outcome = Returned | BelowBuffer | BehindBuffer

  class Encoder {
    const file: seq<Byte>
    var pos: nat
    var eof: bool              // set by a read that fails
    const buffer: array<Byte>
    var bufferPtr: nat

    ghost predicate Valid()
      reads this
    {
      pos <= |file| && (eof ==> pos == |file|) && bufferPtr <= buffer.Length
    }

    constructor (file: seq<Byte>, capacity: nat)
      ensures Valid() && this.file == file && pos == 0 && !eof && bufferPtr == 0
      ensures fresh(buffer) && buffer.Length == capacity
    {
      this.file := file;
      pos, eof, bufferPtr := 0, false, 0;
      buffer := new Byte[capacity];
    }

    /** One byte of the file, or the given one when the file is at its end. */
    method Read(cur: Byte) returns (b: Byte)
      requires Valid()
      modifies this`pos, this`eof
      ensures Valid()
      ensures old(pos) < |file| ==> b == file[old(pos)] && pos == old(pos) + 1 && eof == old(eof)
      ensures old(pos) == |file| ==> b == cur && pos == old(pos) && eof
    {
      if pos < |file| {
        b := file[pos];
        pos := pos + 1;
      } else {
        b := cur;
        eof := true;
      }
    }

    /** The call's outcome, with what it leaves in the buffer and where it leaves the file. */
    ghost predicate Shows(f: Frame)
      requires Valid()
      reads this, buffer
    {
      match f
      case AfterSeparator(bytes, p) => buffer[..bufferPtr] == bytes && pos == p && !eof
      case AtEnd(bytes) => buffer[..bufferPtr] == bytes && eof
      case Underrun => bufferPtr < 4
    }

    method Append(b: Byte)
      requires Valid() && bufferPtr < buffer.Length
      modifies this`bufferPtr, buffer
      ensures Valid() && bufferPtr == old(bufferPtr) + 1 && buffer[..bufferPtr] == old(buffer[..bufferPtr]) + [b]
    {
      buffer[bufferPtr] := b;
      bufferPtr := bufferPtr + 1;
    }

    // What the call has done while the unit that starts at `at` is being read, `out` being what it kept before.
    ghost predicate Reading(from: nat, at: nat, out: seq<Byte>, header: int)
      requires Valid()
      reads this, buffer
    {
      && from <= at <= pos && !eof
      && bufferPtr == |out| + (pos - at) <= pos - from
      && buffer[..bufferPtr] == out + file[at..pos]
      && header == (if pos > at then Header(file[at]) else -1)
    }

    // The call has read past the end of the file.
    ghost predicate Past(f: Frame)
      requires Valid()
      reads this, buffer
    {
      eof && f.AtEnd? && buffer[..bufferPtr] == f.bytes
    }

    /** One round of the inner loop: reads a byte, or finds the end of the file, and puts the byte in the buffer. */
    method Next(cur0: Byte, header0: int, ghost from: nat, ghost at: nat, ghost out: seq<Byte>) returns (cur: Byte, header: int)
      requires Valid() && bufferPtr < buffer.Length && Reading(from, at, out, header0)
      modifies this`pos, this`eof, this`bufferPtr, buffer
      ensures Valid()
      ensures old(pos) < |file| ==> pos == old(pos) + 1 && cur == file[old(pos)] && Reading(from, at, out, header)
      ensures old(pos) == |file| ==> eof && pos == old(pos) && cur == cur0 && buffer[..bufferPtr] == out + file[at..] + [cur0]
    {
      ghost var bytes := buffer[..bufferPtr];
      header := header0;
      cur := Read(cur0);
      if header == -1 {
        header := Header(cur);
      }
      Append(cur);
      if eof {
        assert bytes == out + file[at..];
      } else {
        assert file[at..pos] == file[at..old(pos)] + [cur];
      }
    }

    /** The inner loop: reads up to and including the next byte that is not zero, unless the buffer is full before. */
    method ReadRun(stale: Byte, cur0: Byte, header0: int, ghost from: nat, ghost at: nat, ghost out: seq<Byte>)
      returns (cur: Byte, zeros: nat, header: int, more: bool, full: bool)
      requires Valid() && Reading(from, at, out, header0)
      requires cur0 == if pos > from then file[pos - 1] else stale
      requires NoMarker(file, from, at, pos) && (pos > from ==> cur0 != 0)
      modifies this`pos, this`eof, this`bufferPtr, buffer
      ensures Valid() && pos >= old(pos)
      ensures full ==> Peak(file, from, at, |out|) > buffer.Length
      ensures !full && !eof ==> Reading(from, at, out, header) && !more && pos > old(pos)
      ensures !full && !eof ==> cur == file[pos - 1] != 0 && zeros == pos - old(pos) && ZeroRun(file, from, old(pos), pos)
      ensures !full && eof ==> Past(Split(file, from, at, out, stale)) && (more || zeros < 3)
      ensures !full && eof ==> Peak(file, from, at, |out|) <= buffer.Length
    {
      hide Peak, Split, NextMarker, NoMarker, Header;
      ghost var start := pos;
      ghost var f := Split(file, from, at, out, stale);
      cur, zeros, header, more, full := cur0, 0, header0, true, false;
      while more
        invariant Valid() && pos >= start && !full
        invariant cur == if pos > from then file[pos - 1] else stale
        invariant !eof ==> Reading(from, at, out, header) && zeros == pos - start && (more <==> (pos == start || cur == 0))
        invariant forall i | start <= i < pos - 1 :: file[i] == 0
        invariant eof ==> Past(f) && (more || zeros < 3) && Peak(file, from, at, |out|) <= buffer.Length
        decreases |file| - pos, !eof, more
      {
        if eof {
          return;
        }
        if bufferPtr == buffer.Length {
          full := true;
          RoomInZeros(file, from, at, start, pos, |out|);
          return;
        }
        if pos == |file| {
          NoMoreMarkers(file, from, at, start);
          FileEnds(file, from, at, out, stale);
          PeakOfLast(file, from, at, |out|, pos + 1);
        }
        zeros := zeros + 1;
        cur, header := Next(cur, header, from, at, out);
        more := cur == 0;
      }
    }

    /** A separator has been read: it is taken out of the buffer, and a unit that is a frame ends the call. */
    method EndUnit(header: int, stale: Byte, ghost from: nat, ghost at: nat, ghost start: nat, ghost out: seq<Byte>)
      returns (done: bool, underrun: bool)
      requires Valid() && Reading(from, at, out, header) && at <= start
      requires NoMarker(file, from, at, start) && ZeroRun(file, from, start, pos)
      requires 1 <= file[pos - 1] <= 3 && pos - start >= 3
      modifies this`bufferPtr
      ensures Valid()
      ensures var f := Split(file, from, at, out, stale);
              if underrun then f.Underrun? && bufferPtr < 4
              else if done then f == AfterSeparator(buffer[..bufferPtr], pos)
              else f == Split(file, from, pos, buffer[..bufferPtr], stale) && bufferPtr <= pos - from
      ensures !underrun ==> (done <==> 1 <= file[at] % 32 <= 6)
      ensures var peak := Peak(file, from, at, |out|);
              if underrun || done then peak <= buffer.Length
              else peak <= buffer.Length <==> Peak(file, from, pos, bufferPtr) <= buffer.Length
    {
      hide Split, ZeroRun, NoMarker, NextMarker, Peak;
      FrameTypes(file[at]);
      done, underrun := false, false;
      MarkerFound(file, from, at, start, pos);
      UnitEnds(file, from, at, out, stale, pos);
      if bufferPtr < 4 {
        underrun := true;
        PeakOfLast(file, from, at, |out|, pos);
        return;
      }
      ghost var bytes := buffer[..bufferPtr];
      bufferPtr := bufferPtr - 4;
      assert buffer[..bufferPtr] == bytes[..|bytes| - 4];
      done := 1 <= header < 7;
      if done {
        PeakOfLast(file, from, at, |out|, pos);
      } else {
        PeakOfNext(file, from, at, |out|, pos);
      }
    }

    /** `stale` is the value of the local variable that receives the bytes before it has received one. */
    method NewFrame(stale: Byte) returns (outcome: Outcome)
      requires Valid()
      modifies this`pos, this`eof, this`bufferPtr, buffer
      ensures Valid()
      ensures old(eof) ==> outcome.Returned? && Shows(AtEnd([]))
      ensures !old(eof) ==> (outcome.BehindBuffer? <==> Peak(file, old(pos), old(pos), 0) > buffer.Length)
      ensures !old(eof) && !outcome.BehindBuffer? ==>
                var f := Split(file, old(pos), old(pos), [], stale); (outcome.BelowBuffer? <==> f.Underrun?) && Shows(f)
    {
      ghost var from := pos;
      ghost var at, out: seq<Byte> := pos, [];
      var header: int := -1;
      var done := false;
      var cur := stale;
      outcome := Returned;
      bufferPtr := 0;
      if eof {
        return;
      }
      hide Split, NoMarker, ZeroRun, NextMarker, Peak;
      NothingReadYet(file, from, from);
      ghost var f := Split(file, from, from, [], stale);
      ghost var fits := Peak(file, from, from, 0) <= buffer.Length;
      while !done
        invariant Valid() && from <= pos && outcome.Returned?
        invariant !done && !eof ==> Reading(from, at, out, header) && f == Split(file, from, at, out, stale)
        invariant !done && !eof ==> (fits <==> Peak(file, from, at, |out|) <= buffer.Length)
        invariant !done && !eof ==> NoMarker(file, from, at, pos) && (pos > from ==> cur != 0)
        invariant !done && !eof ==> cur == if pos > from then file[pos - 1] else stale
        invariant eof ==> !done && fits && Past(f)
        invariant done ==> fits && Shows(f) && f.AfterSeparator?
        decreases |file| - pos, !eof, !done
      {
        if eof {
          return;
        }
        ghost var start := pos;
        var zeros, more, full, underrun;
        cur, zeros, header, more, full := ReadRun(stale, cur, header, from, at, out);
        if full {
          outcome := BehindBuffer;
          return;
        }
        if more {
          return;
        }
        if 1 <= cur <= 3 && zeros >= 3 {
          done, underrun := EndUnit(header, stale, from, at, start, out);
          if underrun {
            outcome := BelowBuffer;
            return;
          }
          if !done {
            header := -1;
            at, out := pos, buffer[..bufferPtr];
            NothingReadYet(file, from, pos);
          }
        } else if !eof {
          MarkerNotFound(file, from, at, start, pos);
        }
      }
    }

    /** The loop of read_file: frames are read until the end of the file has been found or as many calls have been made
        as there are stale bytes; the bytes in the buffer after each call are what is written to memory. */
    method ReadFile(stales: seq<Byte>) returns (outcome: Outcome, frames: seq<seq<Byte>>)
      requires Valid() && !eof
      modifies this`pos, this`eof, this`bufferPtr, buffer
      ensures Valid()
      ensures outcome.Returned? <==> Streams.Inside(file, old(pos), stales, buffer.Length)
      ensures outcome.Returned? ==> frames == Streams.Frames(file, old(pos), stales)
    {
      hide Split, Peak;
      outcome, frames := Returned, [];
      ghost var from, all := pos, Streams.Frames(file, pos, stales);
      ghost var inside := Streams.Inside(file, pos, stales, buffer.Length);
      var count := 0;
      while !eof && count < |stales|
        invariant Valid() && 0 <= count <= |stales| && outcome.Returned?
        invariant !eof ==> all == frames + Streams.Frames(file, pos, stales[count..])
        invariant !eof ==> (inside <==> Streams.Inside(file, pos, stales[count..], buffer.Length))
        invariant eof ==> all == frames && inside
        decreases |stales| - count
      {
        ghost var left := stales[count..];
        assert left[0] == stales[count] && left[1..] == stales[count + 1..];
        outcome := NewFrame(stales[count]);
        if !outcome.Returned? {
          return;
        }
        frames := frames + [buffer[..bufferPtr]];
        count := count + 1;
      }
    }
  }
}
