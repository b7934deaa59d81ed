/** The fixed-capacity circular history of samples (`RingBuffer<T>`).

    The buffer is an array that is never reassigned, a write cursor
    `position` in 0..Length and an element count `iterateLength`.  The
    ghost sequence `Written` holds every value written since construction
    or the last `Clear`; the object invariant says that the newest
    min(|Written|, Length) of them sit in the slots just before `position`,
    wrapping around. */
module RingBuffers {
  import opened Wrappers

  datatype BufferError = ArgumentOutOfRange | ArgumentNull | NullReference

  function Min(a: int, b: int): int
  {
    if a < b then a else b
  }

  /** The newest min(|s|, n) elements of `s`, oldest first. */
  function Retained<T>(s: seq<T>, n: nat): (r: seq<T>)
    ensures |r| == Min(|s|, n)
  {
    s[|s| - Min(|s|, n)..]
  }

  function Reversed<T>(s: seq<T>): (r: seq<T>)
    ensures |r| == |s|
  {
    seq(|s|, i requires 0 <= i < |s| => s[|s| - 1 - i])
  }

  /** A slot index one lap outside 0..n brought back into it. */
  function Wrap(i: int, n: int): (r: int)
    requires n > 0 && -n <= i < 2 * n
    ensures 0 <= r < n
  {
    if i < 0 then i + n else if i >= n then i - n else i
  }

  /** The `j`-th newest element of `s` (0 is the last one written). */
  function NthNewest<T>(s: seq<T>, j: int): T
    requires 0 <= j < |s|
  {
    s[|s| - 1 - j]
  }

  /** The slot `j` places before cursor `p` in an array of `n` slots. */
  function Behind(p: int, j: int, n: int): (r: int)
    requires n > 0 && -n <= p - 1 - j < 2 * n
    ensures 0 <= r < n
  {
    Wrap(p - 1 - j, n)
  }

  /** Element `j` of the newest-first view of the retained values is the
      `j`-th newest value written. */
  lemma NewestFirstAt<T>(s: seq<T>, n: nat, j: int)
    requires 0 <= j < Min(|s|, n)
    ensures Reversed(Retained(s, n))[j] == NthNewest(s, j)
  {
  }

  /** What forward enumeration reads: `count` slots starting at `start`. */
  function ForwardOf<T>(slots: seq<T>, start: int, count: int): (r: seq<T>)
    requires 0 <= start < |slots| && 0 <= count <= |slots|
    ensures |r| == count
  {
    seq(count, i requires 0 <= i < count => slots[Wrap(start + i, |slots|)])
  }

  /** The cursor after `L` values are written at cursor `p` of an array of
      `n` slots: it moves on by `L`, coming back to the front past the end. */
  function Advance(p: int, L: int, n: int): int
  {
    if p + L <= n then p + L else p + L - n
  }

  /** The slots after `copied` is written at cursor `p`: when it fits, into
      the slots from `p` on; otherwise the first `|slots| - p` values fill
      the slots from `p` to the end and the rest the slots from 0, so the
      array reads the wrapped tail, then the old slots from the new cursor
      up to `p`, then the first piece. */
  function Placed<T>(slots: seq<T>, p: int, copied: seq<T>): (r: seq<T>)
    requires 0 <= p <= |slots| && |copied| <= |slots|
    ensures |r| == |slots|
  {
    if p + |copied| <= |slots| then slots[..p] + copied + slots[p + |copied|..]
    else copied[|slots| - p..] + (slots[..p] + copied[..|slots| - p])[p + |copied| - |slots|..]
  }

  /** Writing more than `n` values at once leaves only the last `n` of them,
      whatever was there before. */
  lemma RetainedOverflow<T>(s: seq<T>, t: seq<T>, n: nat)
    requires |t| >= n
    ensures Retained(s + t, n) == Retained(t, n) == t[|t| - n..]
  {
    assert (s + t)[|s + t| - n..] == t[|t| - n..];
  }

  /** Only the retained part of a history matters for what is retained
      after further writes. */
  lemma RetainedAppend<T>(s: seq<T>, t: seq<T>, n: nat)
    ensures Retained(Retained(s, n) + t, n) == Retained(s + t, n)
  {
    var r := Retained(s, n);
    var k := Min(|s + t|, n);
    assert |r + t| >= k;
    assert (r + t)[|r + t| - k..] == (s + t)[|s + t| - k..];
  }

  /** Keeping the newest `m` of the newest `n` is keeping the newest
      min(n, m). */
  lemma RetainedTwice<T>(s: seq<T>, n: nat, m: nat)
    ensures Retained(Retained(s, n), m) == Retained(s, Min(n, m))
  {
    var r := Retained(s, n);
    var a := Min(|s|, n);
    assert r == s[|s| - a..];
    assert r[a - Min(a, m)..] == s[|s| - Min(a, m)..];
  }

  /** With capacity 3 and the writes 1, 2, 3, 4, 5 the buffer keeps 3, 4, 5,
      which reverse enumeration yields newest first. */
  lemma RetainedExample()
    ensures Retained([1, 2, 3, 4, 5], 3) == [3, 4, 5]
    ensures Reversed(Retained([1, 2, 3, 4, 5], 3)) == [5, 4, 3]
  {
    assert [1, 2, 3, 4, 5][2..] == [3, 4, 5];
    var r := Reversed([3, 4, 5]);
    assert r[0] == 5 && r[1] == 4 && r[2] == 3;
  }

  class RingBuffer<T(0)> {
    /** The value `Array.Clear` and `default(T)` stand for. */
    const zero: T
    const buffer: array<T>
    var position: int
    var iterateLength: int
    var reverseEnumerateIterationCount: int
    var reverseEnumerateIndex: int

    /** Every value written since construction or the last `Clear`. */
    ghost var Written: seq<T>
    /** Between `BeginReverseEnumerate` and `EndReverseEnumerate`, while the
        read lock is held. */
    ghost var Reversing: bool

    function Length(): int
    {
      buffer.Length
    }

    ghost predicate Valid()
      reads this, buffer
    {
      && buffer.Length > 0
      && 0 <= position <= buffer.Length
      && (position == 0 ==> Written == [])
      && iterateLength == Min(|Written|, buffer.Length)
      && (forall j :: 0 <= j < iterateLength ==>
            buffer[Behind(position, j, buffer.Length)] == NthNewest(Written, j))
      && (if Reversing then
            && 0 <= reverseEnumerateIterationCount <= iterateLength
            && reverseEnumerateIndex == Wrap(position - 1 - reverseEnumerateIterationCount, buffer.Length)
          else
            reverseEnumerateIterationCount == -1 && reverseEnumerateIndex == -1)
    }

    /** The values the buffer holds, newest first. */
    ghost function NewestFirst(): seq<T>
      reads this
    {
      Reversed(Retained(Written, buffer.Length))
    }

    /** The slot forward enumeration starts from. */
    function Start(): int
      reads this
    {
      if position >= buffer.Length then 0 else position
    }

    /** What forward enumeration yields in the current state. */
    ghost function ForwardView(): seq<T>
      reads this, buffer
      requires Valid()
    {
      ForwardOf(buffer[..], Start(), iterateLength)
    }

    constructor (length: int, zero: T)
      requires length > 0
      ensures Valid() && !Reversing && Written == []
      ensures this.zero == zero && Length() == length && position == 0
      ensures fresh(buffer) && forall i :: 0 <= i < length ==> buffer[i] == zero
    {
      this.zero := zero;
      buffer := new T[length](_ => zero);
      position := 0;
      iterateLength := 0;
      reverseEnumerateIterationCount := -1;
      reverseEnumerateIndex := -1;
      Written := [];
      Reversing := false;
    }

    /** The constructor's argument check: a capacity of zero or less throws. */
    static method Create(length: int, zero: T) returns (r: Result<RingBuffer<T>, BufferError>)
      ensures r.Failure? <==> length <= 0
      ensures r.Failure? ==> r.error == ArgumentOutOfRange
      ensures r.Success? ==> && fresh(r.value) && fresh(r.value.buffer)
                             && r.value.Valid() && !r.value.Reversing && r.value.Written == []
                             && r.value.Length() == length && r.value.zero == zero
    {
      if length <= 0 {
        return Failure(ArgumentOutOfRange);
      }
      var b := new RingBuffer(length, zero);
      r := Success(b);
    }

    /** Zeroes every slot and forgets the contents; `position` is kept. */
    method Clear()
      requires Valid() && !Reversing
      modifies this, buffer
      ensures Valid() && !Reversing
      ensures Written == [] && iterateLength == 0 && position == old(position)
      ensures forall i :: 0 <= i < buffer.Length ==> buffer[i] == zero
    {
      forall i | 0 <= i < buffer.Length {
        buffer[i] := zero;
      }
      iterateLength := 0;
      Written := [];
    }

    /** Appends one value, overwriting the oldest once the buffer is full. */
    method Write(data: T)
      requires Valid() && !Reversing
      modifies this, buffer
      ensures Valid() && !Reversing
      ensures Written == old(Written) + [data]
      ensures position == Advance(old(position), 1, buffer.Length)
      ensures buffer[..] == Placed(old(buffer[..]), old(position), [data])
    {
      ghost var oldSlots := buffer[..];
      ghost var p := position;

      if position < buffer.Length {
        buffer[position] := data;
        position := position + 1;
      } else {
        buffer[0] := data;
        position := 1;
      }

      iterateLength := iterateLength + 1;

      if iterateLength > buffer.Length {
        iterateLength := buffer.Length;
      }
      Written := Written + [data];
      SinglePlacement(oldSlots, buffer[..], p, position, data, old(Written));
      assert buffer[..] == Placed(oldSlots, p, [data]);
    }

    /** `Write(T[] data)`: `data.Length` is read before any check, so a null
        array fails with a null dereference. */
    method WriteAll(data: array?<T>) returns (result: Outcome<BufferError>)
      requires Valid() && !Reversing && data != buffer
      modifies this, buffer
      ensures Valid() && !Reversing
      ensures result.Fail? <==> data == null
      ensures result.Fail? ==> result.error == NullReference && unchanged(this, buffer)
      ensures result.Pass? ==> Written == old(Written) + data[..]
      ensures result.Pass? ==>
                && position == Advance(old(position), Min(data.Length, buffer.Length), buffer.Length)
                && buffer[..] == Placed(old(buffer[..]), old(position), Retained(data[..], buffer.Length))
    {
      if data == null {
        return Fail(NullReference);
      }
      ghost var all := data[..];
      assert data[0..data.Length] == all;
      result := WriteRange(data, 0, data.Length);
    }

    /** `Write(T[] data, int offset, int count)`: argument checks, then the
        batch write of `data[offset..offset + count]`. */
    method WriteRange(data: array?<T>, offset: int, count: int) returns (result: Outcome<BufferError>)
      requires Valid() && !Reversing && data != buffer
      modifies this, buffer
      ensures Valid() && !Reversing
      ensures result == if data == null then Fail(ArgumentNull)
                        else if count < 0 || offset < 0 || count + offset > data.Length then Fail(ArgumentOutOfRange)
                        else Pass
      ensures result.Pass? ==> Written == old(Written) + data[offset..offset + count]
      ensures result.Pass? ==>
                && position == Advance(old(position), Min(count, buffer.Length), buffer.Length)
                && buffer[..] == Placed(old(buffer[..]), old(position), Retained(data[offset..offset + count], buffer.Length))
      ensures result.Fail? || count == 0 ==> unchanged(this, buffer)
    {
      if data == null {
        return Fail(ArgumentNull);
      }
      if count < 0 || offset < 0 || count + offset > data.Length {
        return Fail(ArgumentOutOfRange);
      }
      if count == 0 {
        assert data[offset..offset + count] == [];
        assert buffer[..] == Placed(buffer[..], position, []);
        return Pass;
      }
      WriteMultipleInternal(data, offset, count);
      result := Pass;
    }

    /** `Array.Copy(data, from, slots, to, len)`. */
    static method CopyIn(data: array<T>, from: int, slots: array<T>, to: int, len: int)
      requires data != slots
      requires 0 <= from && 0 <= len && from + len <= data.Length
      requires 0 <= to && to + len <= slots.Length
      modifies slots
      ensures slots[..] == old(slots[..])[..to] + data[from..from + len] + old(slots[..])[to + len..]
    {
      forall k | 0 <= k < len {
        slots[to + k] := data[from + k];
      }
      assert slots[..] == old(slots[..])[..to] + data[from..from + len] + old(slots[..])[to + len..];
    }

    /** The element count grows by `k`, capped at the capacity. */
    method Grow(k: int)
      requires 0 <= k && 0 <= iterateLength
      modifies this`iterateLength
      ensures iterateLength == Min(old(iterateLength) + k, buffer.Length)
    {
      iterateLength := iterateLength + k;
      if iterateLength > buffer.Length {
        iterateLength := buffer.Length;
      }
    }

    /** Keeps only the last min(count, Length) items of the batch and hands
        them to `WriteAround`. */
    method WriteMultipleInternal(data: array<T>, offset: int, count: int)
      requires Valid() && !Reversing && data != buffer
      requires 0 <= offset && 0 < count && offset + count <= data.Length
      modifies this, buffer
      ensures Valid() && !Reversing
      ensures Written == old(Written) + data[offset..offset + count]
      ensures position == Advance(old(position), Min(count, buffer.Length), buffer.Length)
      ensures buffer[..] == Placed(old(buffer[..]), old(position), Retained(data[offset..offset + count], buffer.Length))
    {
      var lengthToCopy := count;
      var localOffset := offset;

      if count > buffer.Length {
        lengthToCopy := buffer.Length;
        localOffset := localOffset + count - lengthToCopy;
      }
      assert data[localOffset..localOffset + lengthToCopy]
          == data[offset..offset + count][count - lengthToCopy..];
      WriteAround(data, localOffset, lengthToCopy, data[offset..offset + count]);
    }

    /** Copies `lengthToCopy` items in at most two pieces: up to the end of
        the array, then from slot 0.  `items` is the whole batch, of which
        these are the last `lengthToCopy`. */
    method WriteAround(data: array<T>, localOffset: int, lengthToCopy: int, ghost items: seq<T>)
      requires Valid() && !Reversing && data != buffer
      requires 0 <= localOffset && 0 < lengthToCopy <= buffer.Length && localOffset + lengthToCopy <= data.Length
      requires lengthToCopy <= |items| && (lengthToCopy == buffer.Length || lengthToCopy == |items|)
      requires data[localOffset..localOffset + lengthToCopy] == items[|items| - lengthToCopy..]
      modifies this, buffer
      ensures Valid() && !Reversing
      ensures Written == old(Written) + items
      ensures position == Advance(old(position), lengthToCopy, buffer.Length)
      ensures buffer[..] == Placed(old(buffer[..]), old(position), items[|items| - lengthToCopy..])
    {
      var writeLength := Min(lengthToCopy, buffer.Length - position);
      if writeLength == lengthToCopy {
        WriteStraight(data, localOffset, lengthToCopy, items);
      } else {
        WriteWrapped(data, localOffset, lengthToCopy, items);
      }
    }

    /** A batch that fits before the end of the array: one copy, and the
        cursor moves on by its length. */
    method WriteStraight(data: array<T>, localOffset: int, lengthToCopy: int, ghost items: seq<T>)
      requires Valid() && !Reversing && data != buffer
      requires 0 <= localOffset && 0 < lengthToCopy && localOffset + lengthToCopy <= data.Length
      requires position + lengthToCopy <= buffer.Length
      requires lengthToCopy <= |items| && (lengthToCopy == buffer.Length || lengthToCopy == |items|)
      requires data[localOffset..localOffset + lengthToCopy] == items[|items| - lengthToCopy..]
      modifies this, buffer
      ensures Valid() && !Reversing
      ensures Written == old(Written) + items
      ensures position == old(position) + lengthToCopy
      ensures buffer[..] == Placed(old(buffer[..]), old(position), items[|items| - lengthToCopy..])
    {
      ghost var oldSlots := buffer[..];
      ghost var oldWritten := Written;
      ghost var p := position;
      SlotsOfValid();

      CopyIn(data, localOffset, buffer, position, lengthToCopy);
      Grow(lengthToCopy);
      position := position + lengthToCopy;

      Written := Written + items;
      AfterStraight(oldSlots, data[..], localOffset, lengthToCopy, p, oldWritten, items);
    }

    /** A batch that runs past the end of the array: the slots from the
        cursor to the end first, then `WriteRemainder`. */
    method WriteWrapped(data: array<T>, localOffset: int, lengthToCopy: int, ghost items: seq<T>)
      requires Valid() && !Reversing && data != buffer
      requires 0 <= localOffset && lengthToCopy <= buffer.Length && localOffset + lengthToCopy <= data.Length
      requires position + lengthToCopy > buffer.Length
      requires lengthToCopy <= |items| && (lengthToCopy == buffer.Length || lengthToCopy == |items|)
      requires data[localOffset..localOffset + lengthToCopy] == items[|items| - lengthToCopy..]
      modifies this, buffer
      ensures Valid() && !Reversing
      ensures Written == old(Written) + items
      ensures position == old(position) + lengthToCopy - buffer.Length
      ensures buffer[..] == Placed(old(buffer[..]), old(position), items[|items| - lengthToCopy..])
    {
      ghost var oldSlots := buffer[..];
      ghost var oldWritten := Written;
      ghost var p := position;
      SlotsOfValid();

      var writeLength := buffer.Length - position;
      CopyIn(data, localOffset, buffer, position, writeLength);
      var offset := localOffset + writeLength;
      Grow(writeLength);
      position := position + writeLength;

      WriteRemainder(data, offset, lengthToCopy - writeLength, oldSlots, localOffset, p, oldWritten, items);
    }

    /** The second piece of a wrapping batch: `remainToCopy` items from
        `offset` on go to the slots from 0, after the first piece filled the
        slots from `p` to the end. */
    method WriteRemainder(data: array<T>, offset: int, remainToCopy: int, ghost oldSlots: seq<T>,
                          ghost localOffset: int, ghost p: int, ghost oldWritten: seq<T>, ghost items: seq<T>)
      requires data != buffer && !Reversing
      requires reverseEnumerateIterationCount == -1 && reverseEnumerateIndex == -1
      requires |oldSlots| == buffer.Length > 0 && 0 <= p <= buffer.Length && (p == 0 ==> oldWritten == [])
      requires position == buffer.Length && 0 <= iterateLength
      requires offset == localOffset + (buffer.Length - p) && 0 <= localOffset
      requires 0 < remainToCopy && offset + remainToCopy <= data.Length
      requires (buffer.Length - p) + remainToCopy <= |items| && (buffer.Length - p) + remainToCopy <= buffer.Length
      requires ((buffer.Length - p) + remainToCopy == buffer.Length || (buffer.Length - p) + remainToCopy == |items|)
      requires data[localOffset..localOffset + ((buffer.Length - p) + remainToCopy)]
            == items[|items| - ((buffer.Length - p) + remainToCopy)..]
      requires buffer[..] == oldSlots[..p] + data[localOffset..localOffset + (buffer.Length - p)] + oldSlots[p + (buffer.Length - p)..]
      requires iterateLength == Min(Min(|oldWritten|, buffer.Length) + (buffer.Length - p), buffer.Length)
      requires forall j :: 0 <= j < Min(|oldWritten|, |oldSlots|) ==>
                 oldSlots[Behind(p, j, |oldSlots|)] == NthNewest(oldWritten, j)
      requires Written == oldWritten
      modifies this, buffer
      ensures Valid() && !Reversing
      ensures Written == oldWritten + items
      ensures position == remainToCopy
      ensures buffer[..] == Placed(oldSlots, p, items[|items| - ((buffer.Length - p) + remainToCopy)..])
    {
      ghost var firstPiece := buffer[..];
      CopyIn(data, offset, buffer, 0, remainToCopy);

      Grow(remainToCopy);

      position := remainToCopy;
      Written := Written + items;
      AfterWrapped(oldSlots, firstPiece, data[..], localOffset, buffer.Length - p, remainToCopy, p, oldWritten, items);
    }

    /** The invariant after a batch that fits before the end of the array. */
    lemma AfterStraight(before: seq<T>, data: seq<T>, lo: int, L: int, p: int,
                        written: seq<T>, items: seq<T>)
      requires |before| == buffer.Length > 0 && !Reversing
      requires reverseEnumerateIterationCount == -1 && reverseEnumerateIndex == -1
      requires 0 <= p && (p == 0 ==> written == [])
      requires 0 <= lo && 0 < L <= |items| && lo + L <= |data| && p + L <= |before|
      requires (L == |before| || L == |items|)
      requires data[lo..lo + L] == items[|items| - L..]
      requires buffer[..] == before[..p] + data[lo..lo + L] + before[p + L..]
      requires position == p + L && iterateLength == Min(Min(|written|, |before|) + L, |before|)
      requires forall j :: 0 <= j < Min(|written|, |before|) ==>
                 before[Behind(p, j, |before|)] == NthNewest(written, j)
      requires Written == written + items
      ensures Valid()
      ensures buffer[..] == Placed(before, p, items[|items| - L..])
    {
      BatchPlacement(before, buffer[..], p, position, L, data[lo..lo + L], written, items);
      SlotsAgree();
    }

    /** The invariant after a batch that wraps around to slot 0: `w` items
        fill the slots from `p` to the end, the other `r` the slots from 0. */
    lemma AfterWrapped(before: seq<T>, firstPiece: seq<T>, data: seq<T>, lo: int, w: int, r: int, p: int,
                       written: seq<T>, items: seq<T>)
      requires |before| == buffer.Length > 0 && !Reversing
      requires reverseEnumerateIterationCount == -1 && reverseEnumerateIndex == -1
      requires 0 <= p <= |before| && (p == 0 ==> written == [])
      requires w == |before| - p && 0 < r && w + r <= |items| && w + r <= |before|
      requires 0 <= lo && lo + w + r <= |data|
      requires (w + r == |before| || w + r == |items|)
      requires data[lo..lo + (w + r)] == items[|items| - (w + r)..]
      requires firstPiece == before[..p] + data[lo..lo + w] + before[p + w..]
      requires buffer[..] == firstPiece[..0] + data[lo + w..lo + w + r] + firstPiece[0 + r..]
      requires position == r
      requires iterateLength == Min(Min(Min(|written|, |before|) + w, |before|) + r, |before|)
      requires forall j :: 0 <= j < Min(|written|, |before|) ==>
                 before[Behind(p, j, |before|)] == NthNewest(written, j)
      requires Written == written + items
      ensures Valid()
      ensures buffer[..] == Placed(before, p, items[|items| - (w + r)..])
    {
      WrappedPlacement(before, firstPiece, buffer[..], data, lo, w, r, p, written, items);
      SlotsAgree();
    }

    /** The slots after a wrapping batch, as sequences. */
    static lemma WrappedPlacement(before: seq<T>, firstPiece: seq<T>, after: seq<T>, data: seq<T>,
                                  lo: int, w: int, r: int, p: int, written: seq<T>, items: seq<T>)
      requires |before| > 0 && 0 <= p <= |before| && (p == 0 ==> written == [])
      requires w == |before| - p && 0 < r && w + r <= |items| && w + r <= |before|
      requires 0 <= lo && lo + w + r <= |data|
      requires (w + r == |before| || w + r == |items|)
      requires data[lo..lo + (w + r)] == items[|items| - (w + r)..]
      requires firstPiece == before[..p] + data[lo..lo + w] + before[p + w..]
      requires after == firstPiece[..0] + data[lo + w..lo + w + r] + firstPiece[0 + r..]
      requires forall j :: 0 <= j < Min(|written|, |before|) ==>
                 before[Behind(p, j, |before|)] == NthNewest(written, j)
      ensures |after| == |before|
      ensures after == Placed(before, p, data[lo..lo + (w + r)])
      ensures forall j :: 0 <= j < Min(|written + items|, |after|) ==>
                after[Behind(r, j, |after|)] == NthNewest(written + items, j)
    {
      WrappedShape(before, firstPiece, after, data[lo..lo + (w + r)], data, lo, w, r, p);
      BatchPlacement(before, after, p, r, w + r, data[lo..lo + (w + r)], written, items);
    }

    /** The two pieces of a wrapping batch, as the shape `BatchPlacement`
        expects. */
    static lemma WrappedShape(before: seq<T>, firstPiece: seq<T>, after: seq<T>, copied: seq<T>,
                              data: seq<T>, lo: int, w: int, r: int, p: int)
      requires 0 <= p <= |before| && w == |before| - p && 0 < r && w + r <= |before|
      requires 0 <= lo && lo + w + r <= |data| && copied == data[lo..lo + (w + r)]
      requires firstPiece == before[..p] + data[lo..lo + w] + before[p + w..]
      requires after == firstPiece[..0] + data[lo + w..lo + w + r] + firstPiece[0 + r..]
      ensures |after| == |before|
      ensures after == copied[w..] + (before[..p] + copied[..w])[r..]
    {
      assert before[p + w..] == [];
      assert data[lo..lo + w] == copied[..w];
      assert data[lo + w..lo + w + r] == copied[w..];
      assert firstPiece == before[..p] + copied[..w];
    }

    /** The placement invariant, restated on `buffer[..]`. */
    lemma SlotsOfValid()
      requires Valid()
      ensures forall j :: 0 <= j < Min(|Written|, buffer.Length) ==>
                buffer[..][Behind(position, j, buffer.Length)] == NthNewest(Written, j)
    {
    }

    /** The placement facts about `buffer[..]` are facts about `buffer`. */
    lemma SlotsAgree()
      requires buffer.Length > 0 && 0 < position <= buffer.Length && iterateLength <= buffer.Length
      requires forall j :: 0 <= j < Min(|Written|, buffer.Length) ==>
                 buffer[..][Behind(position, j, buffer.Length)] == NthNewest(Written, j)
      ensures forall j :: 0 <= j < Min(|Written|, buffer.Length) ==>
                 buffer[Behind(position, j, buffer.Length)] == NthNewest(Written, j)
    {
      forall j | 0 <= j < Min(|Written|, buffer.Length)
        ensures buffer[Behind(position, j, buffer.Length)] == NthNewest(Written, j)
      {
        assert buffer[..][Behind(position, j, buffer.Length)] == NthNewest(Written, j);
      }
    }

    /** The slot arithmetic of a batch write: the `L` copied items land in
        the `L` slots from `p` on, wrapping to slot 0, the other slots keep
        their value, and the cursor ends just after the last item. */
    static lemma BatchPlacement(before: seq<T>, after: seq<T>, p: int, q: int, L: int,
                                copied: seq<T>, written: seq<T>, items: seq<T>)
      requires |before| == |after| > 0
      requires 0 <= p <= |before| && (p == 0 ==> written == [])
      requires 0 < L <= |before| && |copied| == L && L <= |items|
      requires copied == items[|items| - L..]
      requires (L == |before| || L == |items|)
      requires p + L <= |before| ==> q == p + L && after == before[..p] + copied + before[p + L..]
      requires p + L > |before| ==>
                 && q == p + L - |before|
                 && after == copied[|before| - p..] + (before[..p] + copied[..|before| - p])[q..]
      requires forall j :: 0 <= j < Min(|written|, |before|) ==>
                 before[Behind(p, j, |before|)] == NthNewest(written, j)
      ensures 0 < q <= |after|
      ensures forall j :: 0 <= j < Min(|written + items|, |after|) ==>
                after[Behind(q, j, |after|)] == NthNewest(written + items, j)
    {
      PlacedPart(before, after, p, q, L, copied, items, written);
      if L < |before| {
        KeptPart(before, after, p, q, L, copied, items, written);
      }
    }

    /** A single write is a batch of one: the value lands at `p`, or at
        slot 0 once the cursor is at the end. */
    static lemma SinglePlacement(before: seq<T>, after: seq<T>, p: int, q: int, data: T, written: seq<T>)
      requires |before| > 0 && 0 <= p <= |before| && (p == 0 ==> written == [])
      requires p < |before| ==> q == p + 1 && after == before[p := data]
      requires p == |before| ==> q == 1 && after == before[0 := data]
      requires forall j :: 0 <= j < Min(|written|, |before|) ==>
                 before[Behind(p, j, |before|)] == NthNewest(written, j)
      ensures 0 < q <= |after|
      ensures forall j :: 0 <= j < Min(|written + [data]|, |after|) ==>
                after[Behind(q, j, |after|)] == NthNewest(written + [data], j)
    {
      if p < |before| {
        assert after == before[..p] + [data] + before[p + 1..];
      } else {
        assert after == [data] + (before[..p] + [data][..0])[1..];
      }
      BatchPlacement(before, after, p, q, 1, [data], written, [data]);
    }

    /** The newest `L` values are the copied items. */
    static lemma PlacedPart(before: seq<T>, after: seq<T>, p: int, q: int, L: int,
                            copied: seq<T>, items: seq<T>, written: seq<T>)
      requires |before| == |after| > 0 && 0 <= p <= |before|
      requires 0 < L <= |before| && |copied| == L && L <= |items|
      requires copied == items[|items| - L..]
      requires p + L <= |before| ==> q == p + L && after == before[..p] + copied + before[p + L..]
      requires p + L > |before| ==>
                 && q == p + L - |before|
                 && after == copied[|before| - p..] + (before[..p] + copied[..|before| - p])[q..]
      ensures forall j :: 0 <= j < L ==>
                after[Behind(q, j, |after|)] == NthNewest(written + items, j)
    {
      var n := |before|;
      var w := written + items;
      forall j | 0 <= j < L
        ensures after[Behind(q, j, n)] == NthNewest(w, j)
      {
        assert NthNewest(w, j) == copied[L - 1 - j];
        if p + L <= n {
          PlacedNoWrap(before, after, p, L, copied, j);
        } else {
          PlacedWrap(before, after, p, L, copied, j);
        }
      }
    }

    /** Older values keep their slots when the batch is shorter than the
        buffer. */
    static lemma KeptPart(before: seq<T>, after: seq<T>, p: int, q: int, L: int,
                          copied: seq<T>, items: seq<T>, written: seq<T>)
      requires |before| == |after| > 0 && 0 <= p <= |before| && (p == 0 ==> written == [])
      requires 0 < L < |before| && |copied| == L == |items|
      requires p + L <= |before| ==> q == p + L && after == before[..p] + copied + before[p + L..]
      requires p + L > |before| ==>
                 && q == p + L - |before|
                 && after == copied[|before| - p..] + (before[..p] + copied[..|before| - p])[q..]
      requires forall j :: 0 <= j < Min(|written|, |before|) ==>
                 before[Behind(p, j, |before|)] == NthNewest(written, j)
      ensures forall j :: L <= j < Min(|written + items|, |after|) ==>
                after[Behind(q, j, |after|)] == NthNewest(written + items, j)
    {
      var n := |before|;
      var w := written + items;
      forall j | L <= j < Min(|w|, n)
        ensures after[Behind(q, j, n)] == NthNewest(w, j)
      {
        var jj := j - L;
        assert 0 <= jj < Min(|written|, n);
        assert NthNewest(w, j) == NthNewest(written, jj);
        if p + L <= n {
          KeptNoWrap(before, after, p, L, copied, j);
        } else {
          KeptWrap(before, after, p, L, copied, j);
        }
      }
    }

    static lemma PlacedNoWrap(before: seq<T>, after: seq<T>, p: int, L: int, copied: seq<T>, j: int)
      requires |before| == |after| && 0 <= p && 0 <= j < L == |copied| && p + L <= |before|
      requires after == before[..p] + copied + before[p + L..]
      ensures after[Behind(p + L, j, |before|)] == copied[L - 1 - j]
    {
      assert Behind(p + L, j, |before|) == p + (L - 1 - j);
    }

    static lemma PlacedWrap(before: seq<T>, after: seq<T>, p: int, L: int, copied: seq<T>, j: int)
      requires |before| == |after| && 0 <= p <= |before| && 0 <= j < L == |copied| <= |before| < p + L
      requires after == copied[|before| - p..] + (before[..p] + copied[..|before| - p])[p + L - |before|..]
      ensures after[Behind(p + L - |before|, j, |before|)] == copied[L - 1 - j]
    {
      var n := |before|;
      var q := p + L - n;
      if q - 1 - j >= 0 {
        assert Behind(q, j, n) == q - 1 - j;
        assert after[q - 1 - j] == copied[n - p + q - 1 - j];
      } else {
        var i := q - 1 - j + n;
        assert Behind(q, j, n) == i && q <= i;
        assert after[i] == (before[..p] + copied[..n - p])[i];
        assert i == p + (L - 1 - j);
      }
    }

    static lemma KeptNoWrap(before: seq<T>, after: seq<T>, p: int, L: int, copied: seq<T>, j: int)
      requires |before| == |after| && 0 < p && 0 < L <= j < |before| && L == |copied| && p + L <= |before|
      requires after == before[..p] + copied + before[p + L..]
      ensures after[Behind(p + L, j, |before|)] == before[Behind(p, j - L, |before|)]
    {
      var n := |before|;
      var i := p - 1 - (j - L);
      if i >= 0 {
        assert Behind(p + L, j, n) == i == Behind(p, j - L, n);
      } else {
        assert Behind(p + L, j, n) == i + n == Behind(p, j - L, n);
        assert p + L <= i + n;
      }
    }

    static lemma KeptWrap(before: seq<T>, after: seq<T>, p: int, L: int, copied: seq<T>, j: int)
      requires |before| == |after| && 0 <= p <= |before| && 0 < L <= j < |before| < p + L && L == |copied|
      requires after == copied[|before| - p..] + (before[..p] + copied[..|before| - p])[p + L - |before|..]
      ensures after[Behind(p + L - |before|, j, |before|)] == before[Behind(p, j - L, |before|)]
    {
      var n := |before|;
      var i := p + L - 1 - j;
      assert Behind(p + L - n, j, n) == i == Behind(p, j - L, n);
      assert 0 <= i < p;
      assert after[i] == (before[..p] + copied[..n - p])[i];
    }

    /** `GetEnumerator`: `iterateLength` slots from `position` on (slot 0 when
        `position` is at the end).  This is oldest-first only when the buffer
        is full; see `ForwardWhenFull`. */
    method Forward() returns (r: seq<T>)
      requires Valid()
      ensures r == ForwardView()
    {
      var index := position;
      if index >= buffer.Length {
        index := 0;
      }
      r := [];
      var iterationCount := 0;
      while iterationCount < iterateLength
        invariant 0 <= iterationCount <= iterateLength
        invariant index == Wrap(Start() + iterationCount, buffer.Length) || iterationCount == buffer.Length
        invariant 0 <= index < buffer.Length
        invariant r == ForwardView()[..iterationCount]
      {
        r := r + [buffer[index]];
        index := index + 1;
        if index >= buffer.Length {
          index := 0;
        }
        iterationCount := iterationCount + 1;
      }
    }

    /** When the buffer is full, forward enumeration yields the retained
        values oldest first. */
    lemma ForwardWhenFull()
      requires Valid() && iterateLength == buffer.Length
      ensures ForwardView() == Retained(Written, buffer.Length)
    {
      var n := buffer.Length;
      var r := Retained(Written, n);
      forall i | 0 <= i < n
        ensures ForwardView()[i] == r[i]
      {
        var j := n - 1 - i;
        assert Wrap(Start() + i, n) == Behind(position, j, n);
        assert r[i] == NthNewest(Written, j);
      }
    }

    /** `ReverseEnumerate`: the retained values, newest first. */
    method ReverseEnumerate() returns (r: seq<T>)
      requires Valid()
      ensures r == NewestFirst()
    {
      var index := position - 1;
      if index < 0 {
        index := buffer.Length - 1;
      }
      r := [];
      var iterationCount := 0;
      while iterationCount < iterateLength
        invariant 0 <= iterationCount <= iterateLength
        invariant 0 <= index < buffer.Length
        invariant iterationCount < iterateLength ==> index == Wrap(position - 1 - iterationCount, buffer.Length)
        invariant |r| == iterationCount
        invariant forall j :: 0 <= j < iterationCount ==> r[j] == NthNewest(Written, j)
      {
        r := r + [buffer[index]];
        index := index - 1;
        if index < 0 {
          index := buffer.Length - 1;
        }
        iterationCount := iterationCount + 1;
      }
      assert r == NewestFirst();
    }

    /** Starts an explicit reverse pass (taking the read lock). */
    method BeginReverseEnumerate()
      requires Valid() && !Reversing
      modifies this
      ensures Valid() && Reversing && reverseEnumerateIterationCount == 0
      ensures Written == old(Written) && position == old(position) && iterateLength == old(iterateLength)
    {
      reverseEnumerateIndex := position - 1;
      if reverseEnumerateIndex < 0 {
        reverseEnumerateIndex := buffer.Length - 1;
      }
      reverseEnumerateIterationCount := 0;
      Reversing := true;
    }

    /** The next value of the reverse pass, or `false` and the default value
        once `iterateLength` values have been returned. */
    method GetReverseEnumerateValue() returns (ok: bool, value: T)
      requires Valid() && Reversing
      modifies this`reverseEnumerateIndex, this`reverseEnumerateIterationCount
      ensures Valid()
      ensures ok <==> old(reverseEnumerateIterationCount) < iterateLength
      ensures ok ==> && value == NewestFirst()[old(reverseEnumerateIterationCount)]
                     && reverseEnumerateIterationCount == old(reverseEnumerateIterationCount) + 1
      ensures !ok ==> value == zero && reverseEnumerateIterationCount == old(reverseEnumerateIterationCount)
    {
      if reverseEnumerateIterationCount < iterateLength {
        value := buffer[reverseEnumerateIndex];
        NewestFirstAt(Written, buffer.Length, reverseEnumerateIterationCount);

        reverseEnumerateIndex := reverseEnumerateIndex - 1;
        if reverseEnumerateIndex < 0 {
          reverseEnumerateIndex := buffer.Length - 1;
        }

        reverseEnumerateIterationCount := reverseEnumerateIterationCount + 1;

        return true, value;
      }

      return false, zero;
    }

    /** Ends the reverse pass (releasing the read lock). */
    method EndReverseEnumerate()
      requires Valid() && Reversing
      modifies this
      ensures Valid() && !Reversing
      ensures reverseEnumerateIterationCount == -1 && reverseEnumerateIndex == -1
      ensures Written == old(Written) && position == old(position) && iterateLength == old(iterateLength)
    {
      reverseEnumerateIterationCount := -1;
      reverseEnumerateIndex := -1;
      Reversing := false;
    }
  }

  /** Two writes into a fresh buffer of three: forward enumeration starts
      at the cursor, on a slot not yet written, so it yields the default
      value and then the older write, and the newer write not at all. */
  method PartialForwardExample() returns (r: seq<int>)
    ensures r == [0, 1]
  {
    var b := new RingBuffer<int>(3, 0);
    assert b.buffer[..] == [0, 0, 0];
    b.Write(1);
    assert b.buffer[..] == [1, 0, 0] && b.position == 1;
    b.Write(2);
    assert b.buffer[..] == [1, 2, 0] && b.position == 2;
    assert b.Written == [1, 2] && b.iterateLength == 2;
    r := b.Forward();
    var f := ForwardOf([1, 2, 0], 2, 2);
    assert r == f;
    assert f[0] == [1, 2, 0][Wrap(2, 3)] == 0;
    assert f[1] == [1, 2, 0][Wrap(3, 3)] == 1;
  }
}
