/** `IntSet` of xoutil/data.py: a set of non-negative integers kept as a
    list of 4096-bit buckets.  Item `x` lives in bucket `x / 4096` at bit
    `x % 4096`.  A bucket (a Python integer used as a bit field) is modelled
    by the set of its bits that are 1, so `|` with a power of two is a
    union and `& ~` a difference. */
module IntSets {
  import opened Numerals

  const BucketSize: nat := 4096

  type Bucket = set<nat>

  /** `__contains__` on the bucket list `c`. */
  predicate Member(c: seq<Bucket>, item: int)
    requires item >= 0
  {
    if c == [] then false
    else
      var index: nat, bit: nat := item / BucketSize, item % BucketSize;
      if |c| > index then bit in c[index] else false
  }

  /** Every bit of every bucket is below the bucket size, and the last
      bucket, if any, is not zero. */
  predicate WellFormed(c: seq<Bucket>)
  {
    (forall i | 0 <= i < |c| :: forall b | b in c[i] :: b < BucketSize)
    && (c == [] || c[|c| - 1] != {})
  }

  /** `b.extend(repeat(0, pad))` so that bucket `index` exists. */
  function Padded(c: seq<Bucket>, index: nat): (r: seq<Bucket>)
    ensures |r| == if |c| <= index then index + 1 else |c|
    ensures r[..|c|] == c
    ensures forall i | |c| <= i < |r| :: r[i] == {}
  {
    if |c| <= index then c + seq(index - |c| + 1, _ => {}) else c
  }

  /** The compaction loop of `remove`: trailing zero buckets are popped. */
  function DropTrailingZeros(c: seq<Bucket>): (r: seq<Bucket>)
    ensures |r| <= |c| && r == c[..|r|]
    ensures r == [] || r[|r| - 1] != {}
    ensures forall i | |r| <= i < |c| :: c[i] == {}
  {
    if c != [] && c[|c| - 1] == {} then DropTrailingZeros(c[..|c| - 1]) else c
  }

  // ---------------------------------------------------------------------
  // What `__repr__` lists: maximal runs of consecutive members, split at
  // bucket boundaries
  // ---------------------------------------------------------------------

  /** `(first, last)` is a run of members inside one bucket. */
  ghost predicate IsRun(c: seq<Bucket>, r: (int, int))
  {
    0 <= r.0 <= r.1 && r.0 / BucketSize == r.1 / BucketSize
    && forall x | r.0 <= x <= r.1 :: Member(c, x)
  }

  /** The run cannot grow: it starts at a bucket start or after a
      non-member, and ends at a bucket end or before a non-member. */
  ghost predicate Maximal(c: seq<Bucket>, r: (int, int))
    requires 0 <= r.0 && 0 <= r.1
  {
    (r.0 % BucketSize == 0 || !Member(c, r.0 - 1))
    && (r.1 % BucketSize == BucketSize - 1 || !Member(c, r.1 + 1))
  }

  ghost predicate InSomeRun(rs: seq<(int, int)>, x: int)
  {
    exists k | 0 <= k < |rs| :: rs[k].0 <= x <= rs[k].1
  }

  /** `rs` lists, in ascending order, the maximal runs of `c`, and every
      member of `c` lies in one of them. */
  ghost predicate RunsOf(c: seq<Bucket>, rs: seq<(int, int)>)
  {
    (forall k | 0 <= k < |rs| :: IsRun(c, rs[k]) && Maximal(c, rs[k]))
    && (forall k | 0 <= k < |rs| - 1 :: rs[k].1 < rs[k + 1].0)
    && (forall x | x >= 0 && Member(c, x) :: InSomeRun(rs, x))
  }

  /** One entry of the representation: `'a'` or `'a-b'`. */
  function RunText(r: (int, int)): string
    requires 0 <= r.0 && 0 <= r.1
  {
    if r.0 == r.1 then Decimal(r.0) else Decimal(r.0) + "-" + Decimal(r.1)
  }

  /** `b', '.join(ss)`. */
  function JoinComma(ss: seq<string>): string
  {
    if ss == [] then ""
    else if |ss| == 1 then ss[0]
    else JoinComma(ss[..|ss| - 1]) + ", " + ss[|ss| - 1]
  }

  function RunTexts(rs: seq<(int, int)>): (ts: seq<string>)
    requires forall k | 0 <= k < |rs| :: 0 <= rs[k].0 && 0 <= rs[k].1
    ensures |ts| == |rs|
    ensures forall k | 0 <= k < |rs| :: ts[k] == RunText(rs[k])
  {
    seq(|rs|, k requires 0 <= k < |rs| => RunText(rs[k]))
  }

  class IntSet {
    /** The buckets, lowest items first. */
    var content: seq<Bucket>
    /** Goes up on every `add` and down on every `remove` inside the buckets. */
    var count: int

    ghost predicate Valid()
      reads this
    {
      WellFormed(content)
    }

    /** `item in s`. */
    predicate Contains(item: int)
      reads this
      requires item >= 0
    {
      Member(content, item)
    }

    /** `IntSet()`: no buckets and a zero count. */
    constructor ()
      ensures Valid() && content == [] && count == 0
      ensures forall x | x >= 0 :: !Contains(x)
    {
      content := [];
      count := 0;
    }

    /** `add(item)`: pads with zero buckets up to the item's bucket and sets its bit. */
    method Add(item: int)
      requires Valid() && item >= 0
      modifies this
      ensures Valid()
      ensures var p := Padded(old(content), item / BucketSize);
              content == p[item / BucketSize := p[item / BucketSize] + {item % BucketSize}]
      ensures count == old(count) + 1
      ensures forall y | y >= 0 :: Contains(y) <==> old(Contains(y)) || y == item
    {
      var index: nat, bit: nat := item / BucketSize, item % BucketSize;
      var size := |content|;
      if size <= index {
        var pad := index - size + 1;
        content := content + seq(pad, _ => {});
      }
      var bucket := content[index];
      bucket := bucket + {bit};
      content := content[index := bucket];
      count := count + 1;
      MemberAfterUpdate(old(content), content, index, bit, true);
    }

    /** `remove(item)`: clears the item's bit when its bucket exists, and
        after a change to the last bucket pops the trailing zero buckets.
        An item past the last bucket leaves everything as it was. */
    method Remove(item: int)
      requires Valid() && item >= 0
      modifies this
      ensures Valid()
      ensures item / BucketSize >= |old(content)| ==> content == old(content) && count == old(count)
      ensures item / BucketSize < |old(content)| ==>
                var cleared := old(content)[item / BucketSize := old(content)[item / BucketSize] - {item % BucketSize}];
                content == (if item / BucketSize == |old(content)| - 1 then DropTrailingZeros(cleared) else cleared)
                && count == old(count) - 1
      ensures forall y | y >= 0 :: Contains(y) <==> old(Contains(y)) && y != item
    {
      var index: nat, bit: nat := item / BucketSize, item % BucketSize;
      var size := |content|;
      if size <= index {
        return;
      }
      var bucket := content[index];
      bucket := bucket - {bit};
      content := content[index := bucket];
      count := count - 1;
      ghost var cleared := content;
      if index == size - 1 {
        while content != [] && content[|content| - 1] == {}
          invariant DropTrailingZeros(content) == DropTrailingZeros(cleared)
          invariant count == old(count) - 1
        {
          content := content[..|content| - 1];
        }
        assert DropTrailingZeros(content) == content;
      }
      RemovedBit(old(content), index, bit);
      ItemParts(item, index, bit);
    }

    /** `__repr__`: `'<empty intset>'`, or the runs of members in ascending
        order, each as `'a'` or `'a-b'`, inside angle brackets. */
    method Repr() returns (s: string)
      requires Valid()
      ensures content == [] ==> s == "<empty intset>"
      ensures content != [] ==> exists rs :: RunsOf(content, rs) && s == "<" + JoinComma(RunTexts(rs)) + ">"
    {
      var b := content;
      if b == [] {
        return "<empty intset>";
      }
      var subsets := ScanRuns(b);
      var results := RunStrings(subsets);
      s := "<" + JoinComma(results) + ">";
    }
  }

  /** The scan of `__repr__`: bucket by bucket, skipping zero buckets, the
      maximal runs of members in ascending order. */
  method ScanRuns(b: seq<Bucket>) returns (subsets: seq<(int, int)>)
    requires WellFormed(b)
    ensures RunsOf(b, subsets)
  {
    subsets := [];
    var index := 0;
    var size := |b|;
    while index < size
      invariant 0 <= index <= size
      invariant Progress(b, subsets, index * BucketSize) == true
    {
      while index < size && b[index] == {}
        invariant 0 <= index <= size
        invariant Progress(b, subsets, index * BucketSize) == true
      {
        EmptyBucket(b, subsets, index);
        index := index + 1;
      }
      if index < size {
        subsets := ScanBucket(b, index, subsets);
        index := index + 1;
      }
    }
    AllCovered(b, subsets);
  }

  /** The entries of the representation, one per run. */
  method RunStrings(subsets: seq<(int, int)>) returns (results: seq<string>)
    requires forall k | 0 <= k < |subsets| :: 0 <= subsets[k].0 && 0 <= subsets[k].1
    ensures results == RunTexts(subsets)
  {
    results := [];
    var k := 0;
    while k < |subsets|
      invariant 0 <= k <= |subsets|
      invariant results == RunTexts(subsets[..k])
    {
      var (first, last) := subsets[k];
      if first == last {
        results := results + [Decimal(first)];
      } else {
        results := results + [Decimal(first) + "-" + Decimal(last)];
      }
      k := k + 1;
    }
    assert subsets[..k] == subsets;
  }

  /** One bucket of the scan in `__repr__`: find its first set bit, then
      walk the remaining bits, extending the open run by consecutive items
      and closing it at each gap; the open run is closed at the bucket's end. */
  method ScanBucket(b: seq<Bucket>, index: nat, subsets: seq<(int, int)>) returns (out: seq<(int, int)>)
    requires WellFormed(b) && index < |b| && b[index] != {}
    requires Progress(b, subsets, index * BucketSize)
    ensures Progress(b, out, (index + 1) * BucketSize)
  {
    out := subsets;
    var bucket, bit: nat := b[index], 0;
    ghost var m :| m in bucket;
    while bit !in bucket
      invariant 0 <= bit <= m
      invariant forall j | 0 <= j < bit :: j !in bucket
      decreases m - bit
    {
      bit := bit + 1;
    }
    out := WalkBucket(b, index, bit, out);
  }

  /** The rest of the scan of one bucket, from its first set bit `start`. */
  method WalkBucket(b: seq<Bucket>, index: nat, start: nat, subsets: seq<(int, int)>) returns (out: seq<(int, int)>)
    requires WellFormed(b) && index < |b| && start in b[index]
    requires forall j | 0 <= j < start :: j !in b[index]
    requires Progress(b, subsets, index * BucketSize)
    ensures Progress(b, out, (index + 1) * BucketSize)
  {
    out := subsets;
    var bucket, bit := b[index], start;
    var base := index * BucketSize;
    var first := base + bit;
    var sset := (first, first);
    FirstRun(b, out, index, bit);
    ghost var reach := first + 1;
    while bit < BucketSize
      invariant bit <= BucketSize
      invariant base <= sset.0 <= sset.1 < base + BucketSize
      invariant bit < BucketSize ==> sset.1 == base + bit && reach == sset.1 + 1
      invariant bit == BucketSize ==> reach == base + BucketSize
      invariant forall j | sset.1 - base < j < bit :: j !in bucket
      invariant Open(b, out, sset, reach) == true  // checked whole, not conjunct by conjunct
    {
      bit := SkipZeroBits(bucket, bit + 1);
      if bit < BucketSize {
        var current := base + bit;
        if sset.1 + 1 == current {
          Extend(b, out, sset, index, bit);
          sset := (sset.0, sset.1 + 1);
          reach := sset.1 + 1;
        } else {
          Split(b, out, sset, index, bit, current);
          out := out + [sset];
          sset := (current, current);
          reach := current + 1;
        }
      } else {
        GapToEnd(b, out, sset, index, base + BucketSize);
        reach := base + BucketSize;
      }
    }
    Close(b, out, sset, index);
    out := out + [sset];
  }

  /** The inner loop of the scan: from bit `from`, the next set bit, or the bucket size. */
  method SkipZeroBits(bucket: Bucket, from: nat) returns (bit: nat)
    requires from <= BucketSize
    ensures from <= bit <= BucketSize
    ensures forall j | from <= j < bit :: j !in bucket
    ensures bit < BucketSize ==> bit in bucket
  {
    bit := from;
    while bit < BucketSize && bit !in bucket
      invariant from <= bit <= BucketSize
      invariant forall j | from <= j < bit :: j !in bucket
    {
      bit := bit + 1;
    }
  }

  // ---------------------------------------------------------------------
  // Membership after `add` and `remove`
  // ---------------------------------------------------------------------

  lemma ItemParts(x: int, index: int, bit: int)
    requires x >= 0 && index >= 0 && 0 <= bit < BucketSize
    ensures x / BucketSize == index && x % BucketSize == bit <==> x == index * BucketSize + bit
  {
  }

  /** Setting or clearing bit `bit` of bucket `index` (padding first) changes
      the membership of that one item only. */
  lemma MemberAfterUpdate(c: seq<Bucket>, d: seq<Bucket>, index: nat, bit: nat, set_: bool)
    requires bit < BucketSize
    requires set_ ==> var p := Padded(c, index); d == p[index := p[index] + {bit}]
    requires !set_ ==> index < |c| && d == c[index := c[index] - {bit}]
    ensures forall y | y >= 0 :: Member(d, y) <==>
              if y == index * BucketSize + bit then set_ else Member(c, y)
  {
    forall y | y >= 0
      ensures Member(d, y) <==> if y == index * BucketSize + bit then set_ else Member(c, y)
    {
      ItemParts(y, index, bit);
    }
  }

  /** Popping zero buckets from the end changes no membership. */
  lemma DroppedZerosSameMembers(c: seq<Bucket>, d: seq<Bucket>)
    requires |d| <= |c| && d == c[..|d|]
    requires forall i | |d| <= i < |c| :: c[i] == {}
    ensures forall y | y >= 0 :: Member(d, y) <==> Member(c, y)
  {
  }

  /** What `remove` leaves: clearing one bit, then, in the last bucket,
      popping the trailing zero buckets, keeps the buckets well formed and
      drops exactly that item. */
  lemma RemovedBit(c: seq<Bucket>, index: nat, bit: nat)
    requires WellFormed(c) && index < |c| && bit < BucketSize
    ensures var cleared := c[index := c[index] - {bit}];
            var d := if index == |c| - 1 then DropTrailingZeros(cleared) else cleared;
            WellFormed(d)
            && forall y | y >= 0 :: Member(d, y) <==> Member(c, y) && y != index * BucketSize + bit
  {
    var cleared := c[index := c[index] - {bit}];
    MemberAfterUpdate(c, cleared, index, bit, false);
    if index == |c| - 1 {
      var d := DropTrailingZeros(cleared);
      DroppedZerosSameMembers(cleared, d);
    }
  }

  // ---------------------------------------------------------------------
  // The scan of `__repr__`
  // ---------------------------------------------------------------------

  /** The closed runs found so far are maximal, ordered, below `upto`, and
      cover every member below `upto`. */
  ghost predicate Progress(c: seq<Bucket>, rs: seq<(int, int)>, upto: int)
  {
    (forall k | 0 <= k < |rs| :: IsRun(c, rs[k]) && Maximal(c, rs[k]) && rs[k].1 < upto)
    && (forall k | 0 <= k < |rs| - 1 :: rs[k].1 < rs[k + 1].0)
    && (forall x | 0 <= x < upto && Member(c, x) :: InSomeRun(rs, x))
  }

  /** As `Progress`, with the run `open` still growing: it starts maximal,
      after every closed run, and with it every member below `upto` is covered. */
  ghost predicate Open(c: seq<Bucket>, rs: seq<(int, int)>, open: (int, int), upto: int)
  {
    (forall k | 0 <= k < |rs| :: IsRun(c, rs[k]) && Maximal(c, rs[k]) && rs[k].1 < open.0)
    && (forall k | 0 <= k < |rs| - 1 :: rs[k].1 < rs[k + 1].0)
    && IsRun(c, open) && (open.0 % BucketSize == 0 || !Member(c, open.0 - 1))
    && (forall x | 0 <= x < upto && Member(c, x) :: InSomeRun(rs + [open], x))
  }

  lemma EmptyBucket(c: seq<Bucket>, rs: seq<(int, int)>, index: nat)
    requires index < |c| && c[index] == {} && Progress(c, rs, index * BucketSize)
    ensures Progress(c, rs, (index + 1) * BucketSize)
  {
    forall x | 0 <= x < (index + 1) * BucketSize && Member(c, x)
      ensures InSomeRun(rs, x)
    {
      if x >= index * BucketSize {
        ItemParts(x, index, x - index * BucketSize);
      }
    }
  }

  lemma FirstRun(c: seq<Bucket>, rs: seq<(int, int)>, index: nat, bit: nat)
    requires WellFormed(c) && index < |c| && bit in c[index] && Progress(c, rs, index * BucketSize)
    requires forall j | 0 <= j < bit :: j !in c[index]
    ensures bit < BucketSize
    ensures Open(c, rs, (index * BucketSize + bit, index * BucketSize + bit), index * BucketSize + bit + 1)
  {
    var first := index * BucketSize + bit;
    ItemParts(first, index, bit);
    FirstRunCovers(c, rs, index, bit, first);
    if bit > 0 {
      ItemParts(first - 1, index, bit - 1);
    }
  }

  /** The members up to the first one of a bucket are covered once it opens a run. */
  lemma FirstRunCovers(c: seq<Bucket>, rs: seq<(int, int)>, index: nat, bit: nat, first: int)
    requires index < |c| && bit < BucketSize && first == index * BucketSize + bit
    requires Progress(c, rs, index * BucketSize)
    requires forall j | 0 <= j < bit :: j !in c[index]
    ensures forall x | 0 <= x < first + 1 && Member(c, x) :: InSomeRun(rs + [(first, first)], x)
  {
    forall x | 0 <= x < first + 1 && Member(c, x)
      ensures InSomeRun(rs + [(first, first)], x)
    {
      if x >= index * BucketSize {
        ItemParts(x, index, x - index * BucketSize);
      }
      InSomeRunAppend(rs, (first, first), x);
    }
  }

  /** An item whose bit lies in a gap of its bucket is not a member. */
  lemma InGap(c: seq<Bucket>, index: nat, lo: int, hi: int, x: int)
    requires index < |c| && hi <= BucketSize
    requires index * BucketSize + lo < x < index * BucketSize + hi && 0 <= x
    requires forall j | lo < j < hi :: j !in c[index]
    requires -1 <= lo
    ensures !Member(c, x)
  {
    ItemParts(x, index, x - index * BucketSize);
  }

  /** Appending a run keeps every item found so far, and finds its own items. */
  lemma InSomeRunAppend(rs: seq<(int, int)>, r: (int, int), x: int)
    requires InSomeRun(rs, x) || r.0 <= x <= r.1
    ensures InSomeRun(rs + [r], x)
  {
    if r.0 <= x <= r.1 {
      assert (rs + [r])[|rs|] == r;
    } else {
      var k :| 0 <= k < |rs| && rs[k].0 <= x <= rs[k].1;
      assert (rs + [r])[k] == rs[k];
    }
  }

  lemma Extend(c: seq<Bucket>, rs: seq<(int, int)>, open: (int, int), index: nat, bit: nat)
    requires index < |c| && bit < BucketSize && bit in c[index]
    requires index * BucketSize <= open.0 <= open.1 && open.1 + 1 == index * BucketSize + bit
    requires Open(c, rs, open, open.1 + 1)
    ensures Open(c, rs, (open.0, open.1 + 1), open.1 + 2)
  {
    var current := open.1 + 1;
    ItemParts(current, index, bit);
    var next := (open.0, current);
    forall x | 0 <= x < current + 1 && Member(c, x)
      ensures InSomeRun(rs + [next], x)
    {
      if x >= open.0 {
        InSomeRunAppend(rs, next, x);
      } else {
        var k :| 0 <= k < |rs + [open]| && (rs + [open])[k].0 <= x <= (rs + [open])[k].1;
        assert k < |rs|;
        assert (rs + [open])[k] == rs[k];
        InSomeRunAppend(rs, next, x);
      }
    }
  }

  /** Closing a run whose next item is absent keeps the closed runs maximal and ordered. */
  lemma CloseRun(c: seq<Bucket>, rs: seq<(int, int)>, open: (int, int), upto: int)
    requires Open(c, rs, open, upto)
    requires open.1 % BucketSize == BucketSize - 1 || !Member(c, open.1 + 1)
    ensures forall k | 0 <= k < |rs + [open]| :: IsRun(c, (rs + [open])[k]) && Maximal(c, (rs + [open])[k])
    ensures forall k | 0 <= k < |rs + [open]| - 1 :: (rs + [open])[k].1 < (rs + [open])[k + 1].0
    ensures forall x | 0 <= x < upto && Member(c, x) :: InSomeRun(rs + [open], x)
  {
    forall k | 0 <= k < |rs + [open]| - 1
      ensures (rs + [open])[k].1 < (rs + [open])[k + 1].0
    {
      if k + 1 < |rs| {
        assert (rs + [open])[k] == rs[k] && (rs + [open])[k + 1] == rs[k + 1];
      }
    }
  }

  lemma Split(c: seq<Bucket>, rs: seq<(int, int)>, open: (int, int), index: nat, bit: nat, current: int)
    requires index < |c| && bit < BucketSize && bit in c[index] && current == index * BucketSize + bit
    requires index * BucketSize <= open.0 <= open.1 < index * BucketSize + bit - 1
    requires forall j | open.1 - index * BucketSize < j < bit :: j !in c[index]
    requires Open(c, rs, open, open.1 + 1)
    ensures Open(c, rs + [open], (current, current), current + 1)
  {
    var base := index * BucketSize;
    ItemParts(current, index, bit);
    InGap(c, index, open.1 - base, bit, open.1 + 1);
    InGap(c, index, open.1 - base, bit, current - 1);
    CloseRun(c, rs, open, open.1 + 1);
    var rs' := rs + [open];
    forall x | 0 <= x < current + 1 && Member(c, x)
      ensures InSomeRun(rs' + [(current, current)], x)
    {
      if x > open.1 && x < current {
        InGap(c, index, open.1 - base, bit, x);
      }
      InSomeRunAppend(rs', (current, current), x);
    }
  }

  lemma GapToEnd(c: seq<Bucket>, rs: seq<(int, int)>, open: (int, int), index: nat, end: int)
    requires index < |c| && end == index * BucketSize + BucketSize
    requires index * BucketSize <= open.0 <= open.1 < index * BucketSize + BucketSize
    requires forall j | open.1 - index * BucketSize < j < BucketSize :: j !in c[index]
    requires Open(c, rs, open, open.1 + 1)
    ensures Open(c, rs, open, end)
  {
    forall x | 0 <= x < index * BucketSize + BucketSize && Member(c, x)
      ensures InSomeRun(rs + [open], x)
    {
      if x > open.1 {
        InGap(c, index, open.1 - index * BucketSize, BucketSize, x);
      }
    }
  }

  lemma Close(c: seq<Bucket>, rs: seq<(int, int)>, open: (int, int), index: nat)
    requires index < |c|
    requires index * BucketSize <= open.0 <= open.1 < index * BucketSize + BucketSize
    requires forall j | open.1 - index * BucketSize < j < BucketSize :: j !in c[index]
    requires Open(c, rs, open, index * BucketSize + BucketSize)
    ensures Progress(c, rs + [open], (index + 1) * BucketSize)
  {
    var base := index * BucketSize;
    if open.1 + 1 < base + BucketSize {
      InGap(c, index, open.1 - base, BucketSize, open.1 + 1);
    } else {
      ItemParts(open.1, index, BucketSize - 1);
    }
    CloseRun(c, rs, open, base + BucketSize);
    assert (index + 1) * BucketSize == base + BucketSize;
    forall k | 0 <= k < |rs + [open]|
      ensures (rs + [open])[k].1 < (index + 1) * BucketSize
    {
      if k < |rs| {
        assert (rs + [open])[k] == rs[k];
      }
    }
  }

  lemma AllCovered(c: seq<Bucket>, rs: seq<(int, int)>)
    requires Progress(c, rs, |c| * BucketSize)
    ensures RunsOf(c, rs)
  {
    forall x | x >= 0 && Member(c, x)
      ensures InSomeRun(rs, x)
    {
      ItemParts(x, x / BucketSize, x % BucketSize);
    }
  }

  // ---------------------------------------------------------------------
  // Properties
  // ---------------------------------------------------------------------

  /** Nothing is a member of an empty set, nor past the last bucket. */
  lemma MemberBounds(c: seq<Bucket>, x: int)
    requires x >= 0 && Member(c, x)
    ensures c != [] && x < |c| * BucketSize
  {
  }

  /** Items 4095 and 4096 are consecutive but lie in two buckets, so the
      representation lists them as two entries. */
  lemma RunsSplitAtBucketBoundary()
    ensures RunsOf([{4095}, {0}], [(4095, 4095), (4096, 4096)])
    ensures !IsRun([{4095}, {0}], (4095, 4096))
  {
    var c: seq<Bucket> := [{4095}, {0}];
    var rs := [(4095, 4095), (4096, 4096)];
    forall x | x >= 0 && Member(c, x)
      ensures InSomeRun(rs, x)
    {
      ItemParts(x, x / BucketSize, x % BucketSize);
      if x / BucketSize == 0 {
        assert x == 4095;
        assert rs[0].0 <= x <= rs[0].1;
      } else {
        assert x == 4096;
        assert rs[1].0 <= x <= rs[1].1;
      }
    }
    assert Member(c, 4095) && Member(c, 4096);
    assert !Member(c, 4094) && !Member(c, 4097);
  }

  /** `_count` is not the number of members: adding the same item twice
      counts two, and removing an absent item inside the buckets subtracts one. */
  method CountIsNotCardinality() returns (s: IntSet)
    ensures s.Valid() && s.count == 0
    ensures s.Contains(7) && forall y | y >= 0 && y != 7 :: !s.Contains(y)
  {
    s := new IntSet();
    s.Add(7);
    s.Add(7);
    s.Remove(8);
    s.Remove(8);
  }
}
