/** Concatenation and equal cuts of sequences, as torch.cat, torch.chunk and torch.split do them along one dimension. */
module Sequences {
  import opened Arithmetic

  function Concat<T>(parts: seq<seq<T>>): seq<T> {
    if parts == [] then [] else parts[0] + Concat(parts[1..])
  }

  lemma {:induction false} ConcatAppend<T>(a: seq<seq<T>>, b: seq<seq<T>>)
    ensures Concat(a + b) == Concat(a) + Concat(b)
  {
    if a == [] {
      assert a + b == b;
    } else {
      assert (a + b)[1..] == a[1..] + b;
      ConcatAppend(a[1..], b);
    }
  }

  lemma ConcatSnoc<T>(a: seq<seq<T>>, s: seq<T>)
    ensures Concat(a + [s]) == Concat(a) + s
  {
    ConcatAppend(a, [s]);
    assert Concat([s]) == s;
  }

  lemma ConcatTake<T>(parts: seq<seq<T>>, i: nat)
    requires i < |parts|
    ensures Concat(parts[..i + 1]) == Concat(parts[..i]) + parts[i]
  {
    ConcatSnoc(parts[..i], parts[i]);
    assert parts[..i + 1] == parts[..i] + [parts[i]];
  }

  /** `count` consecutive pieces of `size` elements each. */
  function Pieces<T>(s: seq<T>, count: nat, size: nat): (pieces: seq<seq<T>>)
    requires |s| == count * size
    ensures |pieces| == count
    ensures forall i :: 0 <= i < count ==> |pieces[i]| == size
    ensures Concat(pieces) == s
  {
    if count == 0 then []
    else
      ProductStep(count, size);
      var rest := Pieces(s[size..], count - 1, size);
      assert s == s[..size] + s[size..];
      [s[..size]] + rest
  }

  function Copies<T>(x: T, times: nat): (s: seq<T>)
    ensures |s| == times && forall i :: 0 <= i < times ==> s[i] == x
  {
    seq(times, i => x)
  }

  function Part<T>(s: seq<T>, offset: nat, len: nat): seq<T>
    requires offset + len <= |s|
  {
    s[offset..offset + len]
  }

  /** From every complete block of `stride` elements, the `len` elements that start at `offset`. */
  function Gather<T>(s: seq<T>, stride: nat, offset: nat, len: nat): seq<T>
    requires stride > 0 && offset + len <= stride
  {
    if |s| < stride then [] else Part(s, offset, len) + Gather(s[stride..], stride, offset, len)
  }

  /** s is made of whole blocks. */
  ghost predicate WholeBlocks<T>(s: seq<T>, stride: nat)
    requires stride > 0
  {
    s == [] || (|s| >= stride && WholeBlocks(s[stride..], stride))
  }

  lemma {:induction false} WholeBlocksAppend<T>(a: seq<T>, b: seq<T>, stride: nat)
    requires stride > 0 && WholeBlocks(a, stride) && WholeBlocks(b, stride)
    ensures WholeBlocks(a + b, stride)
    decreases |a|
  {
    if a == [] {
      assert a + b == b;
    } else {
      WholeBlocksAppend(a[stride..], b, stride);
      assert (a + b)[stride..] == a[stride..] + b;
    }
  }

  lemma {:induction false} GatherAppend<T>(a: seq<T>, b: seq<T>, stride: nat, offset: nat, len: nat)
    requires stride > 0 && offset + len <= stride && WholeBlocks(a, stride)
    ensures Gather(a + b, stride, offset, len) == Gather(a, stride, offset, len) + Gather(b, stride, offset, len)
    decreases |a|
  {
    if a == [] {
      assert a + b == b;
    } else {
      GatherAppend(a[stride..], b, stride, offset, len);
      assert (a + b)[stride..] == a[stride..] + b;
      assert Part(a + b, offset, len) == Part(a, offset, len);
      assert Gather(a + b, stride, offset, len) == Part(a, offset, len) + Gather(a[stride..] + b, stride, offset, len);
    }
  }

  /** The parts are the slices gathered from s, in order. */
  ghost predicate IsGathered<T>(s: seq<T>, stride: nat, offset: nat, len: nat, parts: seq<seq<T>>)
    requires stride > 0 && offset + len <= stride
  {
    Concat(parts) == Gather(s, stride, offset, len)
  }

  lemma GatheredAppend<T>(a: seq<T>, b: seq<T>, stride: nat, offset: nat, len: nat, parts: seq<seq<T>>, more: seq<seq<T>>)
    requires stride > 0 && offset + len <= stride && WholeBlocks(a, stride)
    requires IsGathered(a, stride, offset, len, parts) && IsGathered(b, stride, offset, len, more)
    ensures IsGathered(a + b, stride, offset, len, parts + more)
  {
    GatherAppend(a, b, stride, offset, len);
    ConcatAppend(parts, more);
  }

  lemma OneBlock<T>(block: seq<T>, stride: nat, offset: nat, len: nat)
    requires |block| == stride > 0 && offset + len <= stride
    ensures WholeBlocks(block, stride)
    ensures Gather(block, stride, offset, len) == Part(block, offset, len)
  {
    assert block[stride..] == [];
  }

  /** The substring test. */
  predicate Contains(s: string, part: string) {
    exists i | 0 <= i <= |s| :: part <= s[i..]
  }
}
