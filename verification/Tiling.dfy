/** The server-side multipart copy that moves an object to the archive storage class
    (src/mnema/adapters/cold_storage/s3.py). */
module Tiling {
  import opened Basics

  const MIN_PART_SIZE := 64 * 1024 * 1024
  const MAX_PARTS := 10000

  /** First and last byte, both included, as a copy range names them. */
  type Range = (int, int)

  function CeilDiv(a: nat, b: nat): (q: nat)
    requires b > 0
    ensures q * b >= a && (q > 0 ==> (q - 1) * b < a)
  {
    CeilDivBounds(a, b);
    (a + b - 1) / b
  }

  lemma CeilDivBounds(a: nat, b: nat)
    requires b > 0
    ensures var q := (a + b - 1) / b; q >= 0 && q * b >= a && (q > 0 ==> (q - 1) * b < a)
  {
    var n := a + b - 1;
    var q := n / b;
    assert n == q * b + n % b && 0 <= n % b < b;
    assert (q - 1) * b == q * b - b;
  }

  function PartSize(size: nat): (p: nat)
    ensures p >= MIN_PART_SIZE && p * MAX_PARTS >= size
  {
    var p := CeilDiv(size, MAX_PARTS);
    if p > MIN_PART_SIZE then p else MIN_PART_SIZE
  }

  /** It is 64 MiB unless 10,000 such parts are too few, and then the least size that is enough. */
  lemma LeastPartSize(size: nat)
    ensures size <= 671088640000 ==> PartSize(size) == 67108864
    ensures size > 671088640000 ==> PartSize(size) * 10000 >= size > (PartSize(size) - 1) * 10000
  {
  }

  /** The ranges from a start on, a part apart. */
  function RangesFrom(start: nat, size: nat, part: nat): seq<Range>
    requires part > 0
    decreases if start < size then size - start else 0
  {
    if start >= size then []
    else [(start, (if start + part < size then start + part else size) - 1)] + RangesFrom(start + part, size, part)
  }

  /** Contiguous, disjoint and covering [start, size): each range begins where the one before ended,
      every one but the last has the full part size, and the last ends with the object. */
  predicate Tiles(r: seq<Range>, start: nat, size: nat, part: nat) {
    if start >= size then r == []
    else
      && r != []
      && r[0].0 == start
      && (forall k :: 0 <= k < |r| - 1 ==> r[k].1 + 1 == r[k + 1].0)
      && (forall k :: 0 <= k < |r| - 1 ==> r[k].1 + 1 - r[k].0 == part)
      && r[|r| - 1].1 == size - 1
      && 0 < r[|r| - 1].1 + 1 - r[|r| - 1].0 <= part
  }

  lemma {:induction false} RangesTile(start: nat, size: nat, part: nat)
    requires part > 0
    ensures Tiles(RangesFrom(start, size, part), start, size, part)
    decreases if start < size then size - start else 0
  {
    if start < size {
      RangesTile(start + part, size, part);
      var r, rest := RangesFrom(start, size, part), RangesFrom(start + part, size, part);
      assert r[1..] == rest;
      forall k | 0 <= k < |r| - 1 ensures r[k].1 + 1 == r[k + 1].0 && r[k].1 + 1 - r[k].0 == part {
        assert r[k + 1] == rest[k];
        if k > 0 {
          assert r[k] == rest[k - 1];
        }
      }
      if rest != [] {
        assert r[|r| - 1] == rest[|rest| - 1];
      }
    }
  }

  /** Where the k-th range starts. */
  lemma {:induction false} TileStart(r: seq<Range>, start: nat, size: nat, part: nat, k: nat)
    requires Tiles(r, start, size, part) && k < |r|
    ensures r[k].0 == start + k * part
  {
    if k > 0 {
      TileStart(r, start, size, part, k - 1);
      assert r[k - 1].1 + 1 == r[k].0;
      assert k * part == (k - 1) * part + part;
    }
  }

  /** There are never more parts than the service takes. */
  lemma AtMostMaxParts(size: nat)
    ensures |RangesFrom(0, size, PartSize(size))| <= MAX_PARTS
  {
    var part := PartSize(size);
    var r := RangesFrom(0, size, part);
    RangesTile(0, size, part);
    if |r| > MAX_PARTS {
      TileStart(r, 0, size, part, MAX_PARTS);
      RangesWithin(0, size, part);
      assert false;
    }
  }

  /** The ranges name bytes of the object. */
  predicate Within(r: seq<Range>, size: nat) {
    forall k :: 0 <= k < |r| ==> 0 <= r[k].0 <= r[k].1 < size
  }

  lemma {:induction false} RangesWithin(start: nat, size: nat, part: nat)
    requires part > 0
    ensures Within(RangesFrom(start, size, part), size)
    decreases if start < size then size - start else 0
  {
    if start < size {
      RangesWithin(start + part, size, part);
    }
  }

  /** Each byte of the object is copied by exactly one part. */
  lemma EachByteOnce(size: nat, part: nat, b: nat, k: nat)
    requires part > 0 && b < size && k < |RangesFrom(0, size, part)|
    ensures var r := RangesFrom(0, size, part); r[k].0 <= b <= r[k].1 <==> k == b / part
  {
    var r := RangesFrom(0, size, part);
    RangesTile(0, size, part);
    TileStart(r, 0, size, part, k);
    RangesWithin(0, size, part);
    assert k < |r| - 1 ==> r[k].1 + 1 - r[k].0 == part;
    Quotient(b, part, k);
    assert (k + 1) * part == k * part + part;
  }

  lemma Quotient(b: nat, part: nat, k: nat)
    requires part > 0
    ensures k * part <= b < (k + 1) * part <==> k == b / part
  {
    var q := b / part;
    assert b == q * part + b % part;
    if k < q {
      assert (k + 1) * part <= q * part by { Monotone(k + 1, q, part); }
    } else if q < k {
      assert (q + 1) * part <= k * part by { Monotone(q + 1, k, part); }
      assert (q + 1) * part == q * part + part;
    } else {
      assert (q + 1) * part == q * part + part;
    }
  }

  lemma Monotone(a: nat, b: nat, part: nat)
    requires a <= b
    ensures a * part <= b * part
  {
  }

  /** The bytes the ranges name, one range after the other. */
  function Joined(content: Bytes, r: seq<Range>): Bytes
    requires Within(r, |content|)
  {
    if r == [] then [] else content[r[0].0..r[0].1 + 1] + Joined(content, r[1..])
  }

  /** Reading the ranges in order gives back the object from where they start. */
  lemma {:induction false} JoinedIsContent(content: Bytes, start: nat, part: nat)
    requires part > 0 && start <= |content|
    ensures (RangesWithin(start, |content|, part); Joined(content, RangesFrom(start, |content|, part)) == content[start..])
    decreases |content| - start
  {
    if start < |content| {
      var r := RangesFrom(start, |content|, part);
      RangesWithin(start, |content|, part);
      assert r[1..] == RangesFrom(start + part, |content|, part);
      if start + part <= |content| {
        JoinedIsContent(content, start + part, part);
      }
    }
  }

  // ---------------------------------------------------------------- the copy

  datatype Part = Part(number: nat, content: Bytes)

  function Assembled(parts: seq<Part>): Bytes {
    if parts == [] then [] else Assembled(parts[..|parts| - 1]) + parts[|parts| - 1].content
  }

  /** The object as the service holds it, with the multipart upload that may be open on its key. */
  class RemoteObject {
    var content: Bytes
    var storageClass: string
    var open: Option<seq<Part>>
    ghost var ranges: seq<Range>

    method UploadPartCopy(number: nat, first: nat, last: int) returns (ok: bool)
      requires open.Some? && first <= last < |content|
      modifies this`open, this`ranges
      ensures ok ==> open == Some(old(open).value + [Part(number, content[first..last + 1])])
      ensures ok ==> ranges == old(ranges) + [(first, last)]
      ensures !ok ==> open == old(open) && ranges == old(ranges)
    {
      ok := *;
      if ok {
        open := Some(open.value + [Part(number, content[first..last + 1])]);
        ranges := ranges + [(first, last)];
      }
    }

    /** Copies the range that starts here and adds its part. */
    method CopyNext(number: nat, start: nat, partSize: nat) returns (ok: bool)
      requires open.Some? && start < |content| && partSize > 0
      requires Assembled(open.value) == content[..start]
      modifies this`open, this`ranges
      ensures open.Some?
      ensures ok ==> Assembled(open.value) == content[..EndOf(start, partSize, |content|)]
      ensures ok ==> ranges == old(ranges) + [(start, EndOf(start, partSize, |content|) - 1)]
      ensures ok ==> |open.value| == |old(open).value| + 1
    {
      hide Assembled;
      var end := EndOf(start, partSize, |content|) - 1;
      ghost var before := open.value;
      ok := UploadPartCopy(number, start, end);
      PrefixGrows(content, start, end + 1);
      AssembledGrows(before, Part(number, content[start..end + 1]));
    }

    /** Gives the upload up; this request can fail like any other, and then the parts stay open. */
    method Abort() returns (aborted: bool)
      requires open.Some?
      modifies this`open
      ensures open == if aborted then None else old(open)
    {
      aborted := *;
      if aborted {
        open := None;
      }
    }

    /** Copies the object onto itself part by part into another storage class. Any exception aborts
        the upload. Either way the bytes are what they were; the class changes exactly on success, and
        an upload stays open only when its abort failed too. */
    method MultipartArchiveCopy(archiveClass: string) returns (ok: bool, aborted: bool)
      requires open.None? && |content| > 0
      modifies this
      ensures content == old(content)
      ensures open.Some? <==> !ok && !aborted
      ensures storageClass == if ok then archiveClass else old(storageClass)
      ensures ok ==> ranges == RangesFrom(0, |content|, PartSize(|content|))
    {
      hide PartSize, RangesFrom, Assembled;
      var size := |content|;
      var partSize := PartSize(size);
      open := Some([]);
      ranges := [];
      ok, aborted := true, false;
      var number, start := 1, 0;
      RangesStep(0, size, partSize);
      NothingAssembled();
      while start < size
        invariant content == old(content) && storageClass == old(storageClass)
        invariant open.Some? && Assembled(open.value) == content[..EndOf(0, start, size)]
        invariant ranges + RangesFrom(start, size, partSize) == RangesFrom(0, size, partSize)
        invariant number == |open.value| + 1
        decreases size - start
      {
        RangesStep(start, size, partSize);
        Regroup(ranges, [(start, EndOf(start, partSize, size) - 1)], RangesFrom(start + partSize, size, partSize));
        ok := CopyNext(number, start, partSize);
        if !ok {
          aborted := Abort();
          return;
        }
        number := number + 1;
        start := start + partSize;
      }
      RangesStep(start, size, partSize);
      var completed := *;
      if !completed {
        ok := false;
        aborted := Abort();
        return;
      }
      WholePrefix(content);
      content := Assembled(open.value);
      storageClass := archiveClass;
      open := None;
    }
  }

  /** min(start + part, size). */
  function EndOf(start: nat, part: nat, size: nat): nat {
    if start + part < size then start + part else size
  }

  lemma RangesStep(start: nat, size: nat, part: nat)
    requires part > 0
    ensures RangesFrom(start, size, part) ==
            if start >= size then [] else [(start, EndOf(start, part, size) - 1)] + RangesFrom(start + part, size, part)
  {
  }

  lemma NothingAssembled()
    ensures Assembled([]) == []
  {
  }

  lemma AssembledGrows(parts: seq<Part>, next: Part)
    ensures Assembled(parts + [next]) == Assembled(parts) + next.content
  {
    assert (parts + [next])[..|parts|] == parts;
  }

  lemma PrefixGrows(content: Bytes, from: nat, to: nat)
    requires from <= to <= |content|
    ensures content[..from] + content[from..to] == content[..to]
  {
  }

  lemma WholePrefix(content: Bytes)
    ensures content[..|content|] == content
  {
  }

  lemma Regroup(a: seq<Range>, b: seq<Range>, c: seq<Range>)
    ensures a + (b + c) == a + b + c
  {
  }
}
