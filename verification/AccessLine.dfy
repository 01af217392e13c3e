/**
 * internal/telemetry/access.go: reading one line of the access log in buffer-sized fragments,
 * with a bounded copy of the line and its last 64 bytes kept in place.
 */
module AccessLine {
  newtype Byte = n: int | 0 <= n < 256

  const NEWLINE: Byte := 10
  const ANCHOR_BYTES: nat := 64
  const MAX_LINE_BYTES: nat := 65536

  /** Up to and including the first newline, or everything if there is none. */
  function FirstLine(s: seq<Byte>): (line: seq<Byte>)
    ensures line <= s
    ensures s != [] ==> line != []
    ensures forall i :: 0 <= i < |line| - 1 ==> line[i] != NEWLINE
    ensures |line| < |s| ==> Complete(line)
  {
    if s == [] then []
    else if s[0] == NEWLINE then [NEWLINE]
    else [s[0]] + FirstLine(s[1..])
  }

  predicate Complete(line: seq<Byte>) { line != [] && line[|line| - 1] == NEWLINE }

  function Last(s: seq<Byte>, n: nat): seq<Byte> { if |s| <= n then s else s[|s| - n..] }

  function Flatten(fragments: seq<seq<Byte>>): seq<Byte> {
    if fragments == [] then [] else fragments[0] + Flatten(fragments[1..])
  }

  lemma {:induction false} FlattenAppend(fragments: seq<seq<Byte>>, f: seq<Byte>)
    ensures Flatten(fragments + [f]) == Flatten(fragments) + f
  {
    if fragments == [] {
      assert fragments + [f] == [f];
      assert [f][1..] == [];
    } else {
      assert (fragments + [f])[1..] == fragments[1..] + [f];
      FlattenAppend(fragments[1..], f);
    }
  }

  lemma FlattenSplit(fragments: seq<seq<Byte>>, i: nat)
    requires i < |fragments|
    ensures Flatten(fragments[..i + 1]) == Flatten(fragments[..i]) + fragments[i]
  {
    assert fragments[..i + 1] == fragments[..i] + [fragments[i]];
    FlattenAppend(fragments[..i], fragments[i]);
  }

  lemma {:induction false} FlattenPrefix(fragments: seq<seq<Byte>>, i: nat)
    requires i <= |fragments|
    ensures Flatten(fragments[..i]) <= Flatten(fragments)
    decreases |fragments| - i
  {
    if i < |fragments| {
      FlattenSplit(fragments, i);
      FlattenPrefix(fragments, i + 1);
    } else {
      assert fragments[..i] == fragments;
    }
  }

  /** A buffered reader stops a fragment at a newline, at a full buffer, or at the end of the file. */
  predicate Cut(fragments: seq<seq<Byte>>) {
    forall i, k :: 0 <= i < |fragments| && 0 <= k < |fragments[i]| - 1 ==> fragments[i][k] != NEWLINE
  }

  lemma {:induction false} FirstLineStops(line: seq<Byte>, rest: seq<Byte>)
    requires Complete(line) && forall i :: 0 <= i < |line| - 1 ==> line[i] != NEWLINE
    ensures FirstLine(line + rest) == line
  {
    if |line| == 1 {
      assert (line + rest)[0] == NEWLINE;
    } else {
      assert (line + rest)[1..] == line[1..] + rest;
      FirstLineStops(line[1..], rest);
    }
  }

  lemma {:induction false} FirstLineRunsOut(s: seq<Byte>)
    requires forall i :: 0 <= i < |s| ==> s[i] != NEWLINE
    ensures FirstLine(s) == s
  {
    if s != [] { FirstLineRunsOut(s[1..]); }
  }

  // ---------------------------------------------------------------- the anchor, kept in place

  class Anchor {
    const bytes: array<Byte>
    var length: nat

    ghost predicate Valid()
      reads this
    {
      bytes.Length == ANCHOR_BYTES && length <= ANCHOR_BYTES
    }

    function Contents(): seq<Byte>
      requires Valid()
      reads this, bytes
    {
      bytes[..length]
    }

    constructor ()
      ensures Valid() && Contents() == [] && fresh(bytes)
    {
      bytes, length := new Byte[ANCHOR_BYTES], 0;
    }

    /** Shift the kept bytes left by `overflow` within the array. */
    method Discard(overflow: nat)
      requires Valid() && overflow <= length
      modifies this`length, bytes
      ensures Valid() && Contents() == old(Contents())[overflow..]
    {
      ghost var before := Contents();
      var i := 0;
      while i < length - overflow
        invariant 0 <= i <= length - overflow && |before| == length
        invariant bytes[..i] == before[overflow..][..i]
        invariant bytes[i..length] == before[i..]
      {
        assert bytes[i + overflow] == before[i + overflow];
        bytes[i] := bytes[i + overflow];
        i := i + 1;
      }
      length := length - overflow;
    }

    /** Copy a fragment that fits behind the kept bytes. */
    method Extend(fragment: seq<Byte>)
      requires Valid() && length + |fragment| <= ANCHOR_BYTES
      modifies this`length, bytes
      ensures Valid() && Contents() == old(Contents()) + fragment
    {
      var i := 0;
      while i < |fragment|
        invariant 0 <= i <= |fragment| && Valid()
        invariant bytes[..length] == old(Contents())
        invariant forall k :: 0 <= k < i ==> bytes[length + k] == fragment[k]
      {
        bytes[length + i] := fragment[i];
        i := i + 1;
      }
      length := length + |fragment|;
    }

    /** Keep the last 64 bytes of everything appended so far. */
    method Append(fragment: seq<Byte>)
      requires Valid()
      modifies this`length, bytes
      ensures Valid() && Contents() == Last(old(Contents()) + fragment, ANCHOR_BYTES)
    {
      if |fragment| >= ANCHOR_BYTES {
        length := 0;
        Extend(fragment[|fragment| - ANCHOR_BYTES..]);
      } else {
        if length + |fragment| > ANCHOR_BYTES {
          Discard(length + |fragment| - ANCHOR_BYTES);
        }
        Extend(fragment);
      }
    }
  }

  // ---------------------------------------------------------------- one bounded line

  /** Keeping the last bytes of what was kept is keeping the last bytes of everything. */
  lemma LastOfLast(a: seq<Byte>, b: seq<Byte>, n: nat)
    ensures Last(Last(a, n) + b, n) == Last(a + b, n)
  {
  }

  /**
   * The result depends on the bytes of the stream alone, not on how they were cut: the line up
   * to its newline, all of it unless it is too long, and its last 64 bytes.
   */
  method ReadBoundedLine(fragments: seq<seq<Byte>>)
    returns (data: seq<Byte>, anchor: seq<Byte>, bytesRead: nat, complete: bool, tooLong: bool)
    requires Cut(fragments)
    ensures var line := FirstLine(Flatten(fragments));
            && bytesRead == |line|
            && (complete <==> NEWLINE in Flatten(fragments)) && (complete <==> Complete(line))
            && (tooLong <==> |line| > MAX_LINE_BYTES)
            && data == (if tooLong then [] else line)
            && anchor == Last(line, ANCHOR_BYTES)
  {
    hide Flatten, FirstLine, Last, Cut;
    var tail := new Anchor();
    data, bytesRead, tooLong := [], 0, false;
    var i := 0;
    NothingRead(fragments);
    while i < |fragments|
      invariant i <= |fragments| && tail.Valid() && fresh(tail) && fresh(tail.bytes)
      invariant NEWLINE !in Flatten(fragments[..i])
      invariant bytesRead == |Flatten(fragments[..i])|
      invariant tooLong <==> bytesRead > MAX_LINE_BYTES
      invariant data == if tooLong then [] else Flatten(fragments[..i])
      invariant tail.Contents() == Last(Flatten(fragments[..i]), ANCHOR_BYTES)
    {
      var fragment := fragments[i];
      FlattenSplit(fragments, i);
      LastOfLast(Flatten(fragments[..i]), fragment, ANCHOR_BYTES);
      bytesRead := bytesRead + |fragment|;
      tail.Append(fragment);
      if !tooLong {
        if bytesRead > MAX_LINE_BYTES {
          data, tooLong := [], true;
        } else {
          data := data + fragment;
        }
      }
      if fragment != [] && fragment[|fragment| - 1] == NEWLINE {
        LineEndsHere(fragments, i);
        return data, tail.Contents(), bytesRead, true, tooLong;
      }
      LineGoesOn(fragments, i);
      i := i + 1;
    }
    assert fragments[..i] == fragments;
    FirstLineRunsOut(Flatten(fragments));
    return data, tail.Contents(), bytesRead, false, tooLong;
  }

  lemma NothingRead(fragments: seq<seq<Byte>>)
    ensures Flatten(fragments[..0]) == [] == Last(Flatten(fragments[..0]), ANCHOR_BYTES)
  {
  }

  lemma LineGoesOn(fragments: seq<seq<Byte>>, i: nat)
    requires Cut(fragments) && i < |fragments| && NEWLINE !in Flatten(fragments[..i])
    requires fragments[i] == [] || fragments[i][|fragments[i]| - 1] != NEWLINE
    ensures NEWLINE !in Flatten(fragments[..i + 1])
  {
    FlattenSplit(fragments, i);
  }

  lemma LineEndsHere(fragments: seq<seq<Byte>>, i: nat)
    requires Cut(fragments) && i < |fragments| && NEWLINE !in Flatten(fragments[..i])
    requires fragments[i] != [] && fragments[i][|fragments[i]| - 1] == NEWLINE
    ensures var line := Flatten(fragments[..i]) + fragments[i];
            FirstLine(Flatten(fragments)) == line && Complete(line) && NEWLINE in Flatten(fragments)
  {
    var line := Flatten(fragments[..i]) + fragments[i];
    FlattenSplit(fragments, i);
    FlattenPrefix(fragments, i + 1);
    var rest := Flatten(fragments)[|line|..];
    assert Flatten(fragments) == line + rest;
    FirstLineStops(line, rest);
  }
}
