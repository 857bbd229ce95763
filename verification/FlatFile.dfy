/** The flat view of a file: a byte sequence, the leaf blocks it is cut into, and
    what a write and a truncate do to it.  Everything the block code does is proved
    to refine these definitions. */
module FlatFile {

  newtype byte = b: int | 0 <= b < 256

  type Bytes = seq<byte>

  function Max(a: int, b: int): int {
    if a < b then b else a
  }

  function Min(a: int, b: int): int {
    if a < b then a else b
  }

  function Zeros(n: nat): (z: Bytes)
    ensures |z| == n
  {
    seq(n, _ => 0 as byte)
  }

  // The concatenation of the leaf blocks, in order.
  function Flat(leaves: seq<Bytes>): Bytes {
    if leaves == [] then [] else Flat(leaves[..|leaves| - 1]) + leaves[|leaves| - 1]
  }

  // The file offset at which leaf k starts.
  function Start(leaves: seq<Bytes>, k: nat): nat
    requires k <= |leaves|
  {
    |Flat(leaves[..k])|
  }

  // The bytes of `f` after writing `data` at `off`: a hole is filled with zeros, and
  // an empty write changes nothing, wherever it points.
  function WriteAt(f: Bytes, data: Bytes, off: nat): Bytes {
    if data == [] then f
    else seq(Max(|f|, off + |data|), i requires 0 <= i =>
           if off <= i < off + |data| then data[i - off] else if i < |f| then f[i] else 0)
  }

  lemma EmptyWrite(f: Bytes, off: nat)
    ensures WriteAt(f, [], off) == f
  {
  }

  // What a read of up to n bytes at `off` sees: short at the end of the file.
  function ReadAt(f: Bytes, off: nat, n: nat): Bytes {
    if off < |f| then f[off..Min(off + n, |f|)] else []
  }

  // `buf` with `x` copied over it at `at`.
  function Splice(buf: Bytes, at: nat, x: Bytes): Bytes
    requires at + |x| <= |buf|
  {
    buf[..at] + x + buf[at + |x|..]
  }

  function TruncateTo(f: Bytes, size: nat): Bytes {
    if size <= |f| then f[..size] else f + Zeros(size - |f|)
  }

  datatype FileOp = WriteOp(data: Bytes, off: nat) | TruncateOp(size: nat)

  // A write, or a truncate that extends the file, past the file size limit is refused.
  predicate TooBig(f: Bytes, op: FileOp, maxFileBytes: nat) {
    match op
    case WriteOp(data, off) => off + |data| > maxFileBytes
    case TruncateOp(size) => size > |f| && size > maxFileBytes
  }

  // The operation is a truncate to less than there is.
  predicate Shortens(f: Bytes, op: FileOp) {
    op.TruncateOp? && op.size < |f|
  }

  function ApplyOp(f: Bytes, op: FileOp, maxFileBytes: nat): Bytes {
    if TooBig(f, op, maxFileBytes) then f
    else match op
      case WriteOp(data, off) => WriteAt(f, data, off)
      case TruncateOp(size) => TruncateTo(f, size)
  }

  function ApplyOps(f: Bytes, ops: seq<FileOp>, maxFileBytes: nat): Bytes {
    if ops == [] then f
    else ApplyOp(ApplyOps(f, ops[..|ops| - 1], maxFileBytes), ops[|ops| - 1], maxFileBytes)
  }

  // Every operation was within the size limit when it was applied.
  predicate Accepted(f: Bytes, ops: seq<FileOp>, maxFileBytes: nat) {
    ops == [] || (Accepted(f, ops[..|ops| - 1], maxFileBytes) &&
                  !TooBig(ApplyOps(f, ops[..|ops| - 1], maxFileBytes), ops[|ops| - 1], maxFileBytes))
  }

  lemma CutLength(f: Bytes, op: FileOp, maxFileBytes: nat)
    ensures op.TruncateOp? && op.size < |f| ==> |ApplyOp(f, op, maxFileBytes)| == op.size
  {
  }

  lemma ApplyNone(f: Bytes, maxFileBytes: nat)
    ensures ApplyOps(f, [], maxFileBytes) == f && Accepted(f, [], maxFileBytes)
  {
  }

  lemma ApplySnoc(f: Bytes, ops: seq<FileOp>, op: FileOp, maxFileBytes: nat)
    ensures ApplyOps(f, ops + [op], maxFileBytes) == ApplyOp(ApplyOps(f, ops, maxFileBytes), op, maxFileBytes)
    ensures Accepted(f, ops, maxFileBytes) && !TooBig(ApplyOps(f, ops, maxFileBytes), op, maxFileBytes) ==>
              Accepted(f, ops + [op], maxFileBytes)
  {
    assert (ops + [op])[..|ops + [op]| - 1] == ops;
  }

  lemma ApplyOne(f: Bytes, op: FileOp, maxFileBytes: nat)
    ensures ApplyOps(f, [op], maxFileBytes) == ApplyOp(f, op, maxFileBytes)
  {
    assert [op][..0] == [];
  }

  lemma {:induction false} AcceptedAt(f: Bytes, ops: seq<FileOp>, i: nat, maxFileBytes: nat)
    requires i < |ops| && Accepted(f, ops, maxFileBytes)
    ensures !TooBig(ApplyOps(f, ops[..i], maxFileBytes), ops[i], maxFileBytes)
    ensures ApplyOps(f, ops[..i + 1], maxFileBytes) ==
      ApplyOp(ApplyOps(f, ops[..i], maxFileBytes), ops[i], maxFileBytes)
    decreases |ops|
  {
    var init := ops[..|ops| - 1];
    if i < |ops| - 1 {
      AcceptedAt(f, init, i, maxFileBytes);
      assert init[..i] == ops[..i] && init[..i + 1] == ops[..i + 1];
    } else {
      assert ops[..i + 1][..i] == ops[..i];
    }
  }

  // --- what a run leaves at one position ----------------------------------------------------------

  // Operation k of the run was not refused.
  predicate Effective(f: Bytes, ops: seq<FileOp>, k: nat, maxFileBytes: nat)
    requires k < |ops|
  {
    !TooBig(ApplyOps(f, ops[..k], maxFileBytes), ops[k], maxFileBytes)
  }

  predicate Covers(op: FileOp, i: nat) {
    op.WriteOp? && op.off <= i < op.off + |op.data|
  }

  predicate CutsOff(op: FileOp, i: nat) {
    op.TruncateOp? && op.size <= i
  }

  // The file has byte i after the operation, whatever it was before.
  predicate Reaches(op: FileOp, i: nat) {
    if op.WriteOp? then op.data != [] && i < op.off + |op.data| else i < op.size
  }

  ghost predicate NoneCutsOff(f: Bytes, ops: seq<FileOp>, from: nat, maxFileBytes: nat, i: nat) {
    forall k :: from <= k < |ops| && Effective(f, ops, k, maxFileBytes) ==> !CutsOff(ops[k], i)
  }

  ghost predicate NoneTouches(f: Bytes, ops: seq<FileOp>, from: nat, maxFileBytes: nat, i: nat) {
    forall k :: from <= k < |ops| && Effective(f, ops, k, maxFileBytes) ==> !CutsOff(ops[k], i) && !Covers(ops[k], i)
  }

  lemma EffectiveBefore(f: Bytes, ops: seq<FileOp>, n: nat, maxFileBytes: nat)
    requires n <= |ops|
    ensures forall k :: 0 <= k < n ==> Effective(f, ops[..n], k, maxFileBytes) == Effective(f, ops, k, maxFileBytes)
  {
    forall k | 0 <= k < n ensures ops[..n][..k] == ops[..k] {
    }
  }

  lemma {:induction false} StaysInFile(f: Bytes, ops: seq<FileOp>, from: nat, maxFileBytes: nat, i: nat)
    requires from <= |ops| && NoneCutsOff(f, ops, from, maxFileBytes, i) && i < |ApplyOps(f, ops[..from], maxFileBytes)|
    ensures i < |ApplyOps(f, ops, maxFileBytes)|
  {
    if from == |ops| {
      assert ops[..from] == ops;
    } else {
      var n := |ops| - 1;
      EffectiveBefore(f, ops, n, maxFileBytes);
      assert ops[..n][..from] == ops[..from];
      StaysInFile(f, ops[..n], from, maxFileBytes, i);
      assert Effective(f, ops, n, maxFileBytes) ==> !CutsOff(ops[n], i);
    }
  }

  lemma {:induction false} StaysAt(f: Bytes, ops: seq<FileOp>, from: nat, maxFileBytes: nat, i: nat)
    requires from <= |ops| && NoneTouches(f, ops, from, maxFileBytes, i) && i < |ApplyOps(f, ops, maxFileBytes)|
    ensures var was := ApplyOps(f, ops[..from], maxFileBytes);
      ApplyOps(f, ops, maxFileBytes)[i] == if i < |was| then was[i] else 0
  {
    if from == |ops| {
      assert ops[..from] == ops;
    } else {
      var n := |ops| - 1;
      EffectiveBefore(f, ops, n, maxFileBytes);
      assert ops[..n][..from] == ops[..from];
      assert Effective(f, ops, n, maxFileBytes) ==> !CutsOff(ops[n], i) && !Covers(ops[n], i);
      if i < |ApplyOps(f, ops[..n], maxFileBytes)| {
        StaysAt(f, ops[..n], from, maxFileBytes, i);
      } else if i < |ApplyOps(f, ops[..from], maxFileBytes)| {
        StaysInFile(f, ops[..n], from, maxFileBytes, i);
      }
    }
  }

  /** Every byte of a file after a run of writes and truncates is the one that the last operation to
      touch its position, of those within the size limit, wrote there; if that was a truncate, or the
      file first got as far as that in the run, it is 0; if there was none it is the old byte. */
  lemma ByteAfterRun(f: Bytes, ops: seq<FileOp>, from: nat, maxFileBytes: nat, i: nat)
    requires from <= |ops| && NoneTouches(f, ops, from, maxFileBytes, i) && i < |ApplyOps(f, ops, maxFileBytes)|
    requires from > 0 ==> Effective(f, ops, from - 1, maxFileBytes)
    requires from > 0 ==> Covers(ops[from - 1], i) || CutsOff(ops[from - 1], i)
    ensures from == 0 ==> ApplyOps(f, ops, maxFileBytes)[i] == if i < |f| then f[i] else 0
    ensures from > 0 && ops[from - 1].WriteOp? ==>
      ApplyOps(f, ops, maxFileBytes)[i] == ops[from - 1].data[i - ops[from - 1].off]
    ensures from > 0 && ops[from - 1].TruncateOp? ==> ApplyOps(f, ops, maxFileBytes)[i] == 0
  {
    StaysAt(f, ops, from, maxFileBytes, i);
    if from > 0 {
      assert ops[..from][..from - 1] == ops[..from - 1];
    }
  }

  ghost predicate LastReaches(f: Bytes, ops: seq<FileOp>, k: nat, maxFileBytes: nat, i: nat)
    requires k < |ops|
  {
    Effective(f, ops, k, maxFileBytes) && Reaches(ops[k], i) && NoneCutsOff(f, ops, k + 1, maxFileBytes, i)
  }

  lemma NotReached(f: Bytes, op: FileOp, maxFileBytes: nat, i: nat)
    requires i < |ApplyOp(f, op, maxFileBytes)| && (TooBig(f, op, maxFileBytes) || !Reaches(op, i))
    ensures i < |f| && (TooBig(f, op, maxFileBytes) || !CutsOff(op, i))
  {
  }

  lemma NoneCutsOffSnoc(f: Bytes, ops: seq<FileOp>, from: nat, maxFileBytes: nat, i: nat)
    requires ops != [] && from < |ops| && NoneCutsOff(f, ops[..|ops| - 1], from, maxFileBytes, i)
    requires Effective(f, ops, |ops| - 1, maxFileBytes) ==> !CutsOff(ops[|ops| - 1], i)
    ensures NoneCutsOff(f, ops, from, maxFileBytes, i)
  {
    hide TooBig, ApplyOps;
    EffectiveBefore(f, ops, |ops| - 1, maxFileBytes);
  }

  lemma NothingCutsOff(f: Bytes, ops: seq<FileOp>, from: nat, maxFileBytes: nat, i: nat)
    requires from >= |ops|
    ensures NoneCutsOff(f, ops, from, maxFileBytes, i)
  {
  }

  lemma {:induction false} ReachedBefore(f: Bytes, ops: seq<FileOp>, maxFileBytes: nat, i: nat)
    requires i < |ApplyOps(f, ops, maxFileBytes)|
    ensures (i < |f| && NoneCutsOff(f, ops, 0, maxFileBytes, i)) ||
            exists k :: 0 <= k < |ops| && LastReaches(f, ops, k, maxFileBytes, i)
  {
    hide TooBig, ApplyOp, Reaches, CutsOff, NoneCutsOff;
    if ops == [] {
      assert NoneCutsOff(f, ops, 0, maxFileBytes, i) by { NothingCutsOff(f, ops, 0, maxFileBytes, i); }
    } else {
      var n := |ops| - 1;
      EffectiveBefore(f, ops, n, maxFileBytes);
      if Effective(f, ops, n, maxFileBytes) && Reaches(ops[n], i) {
        NothingCutsOff(f, ops, n + 1, maxFileBytes, i);
        assert LastReaches(f, ops, n, maxFileBytes, i);
      } else {
        NotReached(ApplyOps(f, ops[..n], maxFileBytes), ops[n], maxFileBytes, i);
        ReachedBefore(f, ops[..n], maxFileBytes, i);
        if k :| 0 <= k < n && LastReaches(f, ops[..n], k, maxFileBytes, i) {
          NoneCutsOffSnoc(f, ops, k + 1, maxFileBytes, i);
          assert LastReaches(f, ops, k, maxFileBytes, i);
        } else {
          NoneCutsOffSnoc(f, ops, 0, maxFileBytes, i);
        }
      }
    }
  }

  /** The file has byte i after the run if and only if it had it and no operation cut it off, or an
      operation reached beyond it and none after that cut it off. */
  lemma LengthAfterRun(f: Bytes, ops: seq<FileOp>, maxFileBytes: nat, i: nat)
    ensures i < |ApplyOps(f, ops, maxFileBytes)| <==>
      || (i < |f| && NoneCutsOff(f, ops, 0, maxFileBytes, i))
      || exists k :: 0 <= k < |ops| && LastReaches(f, ops, k, maxFileBytes, i)
  {
    if i < |f| && NoneCutsOff(f, ops, 0, maxFileBytes, i) {
      StaysInFile(f, ops, 0, maxFileBytes, i);
    }
    forall k | 0 <= k < |ops| && LastReaches(f, ops, k, maxFileBytes, i) ensures i < |ApplyOps(f, ops, maxFileBytes)| {
      assert ops[..k + 1][..k] == ops[..k];
      StaysInFile(f, ops, k + 1, maxFileBytes, i);
    }
    if i < |ApplyOps(f, ops, maxFileBytes)| {
      ReachedBefore(f, ops, maxFileBytes, i);
    }
  }

  // What the operation would make of a file with no size limit.
  function Unlimited(f: Bytes, op: FileOp): Bytes {
    match op
    case WriteOp(data, off) => WriteAt(f, data, off)
    case TruncateOp(size) => TruncateTo(f, size)
  }

  lemma LimitStep(f: Bytes, op: FileOp, maxFileBytes: nat)
    requires |f| <= maxFileBytes
    ensures |ApplyOp(f, op, maxFileBytes)| <= maxFileBytes
    ensures TooBig(f, op, maxFileBytes) <==>
      |Unlimited(f, op)| > maxFileBytes || (op.WriteOp? && op.data == [] && op.off > maxFileBytes)
  {
  }

  /** No run takes a file beyond the size limit. */
  lemma {:induction false} LimitKept(f: Bytes, ops: seq<FileOp>, maxFileBytes: nat)
    requires |f| <= maxFileBytes
    ensures |ApplyOps(f, ops, maxFileBytes)| <= maxFileBytes
  {
    hide ApplyOp;
    if ops != [] {
      LimitKept(f, ops[..|ops| - 1], maxFileBytes);
      LimitStep(ApplyOps(f, ops[..|ops| - 1], maxFileBytes), ops[|ops| - 1], maxFileBytes);
    }
  }

  /** An operation of a run is refused if and only if it would take the file beyond the limit, or is an
      empty write that points beyond it. */
  lemma RefusedIff(f: Bytes, ops: seq<FileOp>, k: nat, maxFileBytes: nat)
    requires |f| <= maxFileBytes && k < |ops|
    ensures !Effective(f, ops, k, maxFileBytes) <==>
      || |Unlimited(ApplyOps(f, ops[..k], maxFileBytes), ops[k])| > maxFileBytes
      || (ops[k].WriteOp? && ops[k].data == [] && ops[k].off > maxFileBytes)
  {
    hide TooBig, Unlimited, ApplyOps;
    LimitKept(f, ops[..k], maxFileBytes);
    LimitStep(ApplyOps(f, ops[..k], maxFileBytes), ops[k], maxFileBytes);
  }

  lemma {:induction false} FlatAppend(a: seq<Bytes>, b: seq<Bytes>)
    ensures Flat(a + b) == Flat(a) + Flat(b)
  {
    if b == [] {
      assert a + b == a;
    } else {
      FlatAppend(a, b[..|b| - 1]);
      assert (a + b)[..|a + b| - 1] == a + b[..|b| - 1];
    }
  }

  lemma FlatOne(b: Bytes)
    ensures Flat([b]) == b
  {
    assert [b][..0] == [];
  }

  lemma FlatMiddle(pre: seq<Bytes>, x: Bytes, post: seq<Bytes>)
    ensures Flat(pre + [x] + post) == Flat(pre) + x + Flat(post)
  {
    hide Flat;
    FlatAppend(pre + [x], post);
    FlatAppend(pre, [x]);
    FlatOne(x);
  }

  lemma FlatPair(pre: seq<Bytes>, x: Bytes, y: Bytes, post: seq<Bytes>)
    ensures Flat(pre + [x, y] + post) == Flat(pre) + (x + y) + Flat(post)
  {
    hide Flat;
    assert pre + [x, y] + post == (pre + [x]) + [y] + post;
    FlatMiddle(pre + [x], y, post);
    FlatAppend(pre, [x]);
    FlatOne(x);
    assert Flat(pre) + x + y == Flat(pre) + (x + y);
  }

  // Cutting the file at leaf k: what comes before, the leaf, what comes after.
  lemma FlatSplit(leaves: seq<Bytes>, k: nat)
    requires k < |leaves|
    ensures Flat(leaves) == Flat(leaves[..k]) + leaves[k] + Flat(leaves[k + 1..])
  {
    var upTo := leaves[..k + 1];
    assert leaves == upTo + leaves[k + 1..];
    FlatAppend(upTo, leaves[k + 1..]);
    assert upTo[..|upTo| - 1] == leaves[..k];
  }

  lemma FlatUpdate(leaves: seq<Bytes>, k: nat, b: Bytes)
    requires k < |leaves|
    ensures Flat(leaves[k := b]) == Flat(leaves[..k]) + b + Flat(leaves[k + 1..])
  {
    FlatSplit(leaves[k := b], k);
    assert leaves[k := b][..k] == leaves[..k];
    assert leaves[k := b][k + 1..] == leaves[k + 1..];
  }

  lemma StartNext(leaves: seq<Bytes>, k: nat)
    requires k < |leaves|
    ensures Start(leaves, k + 1) == Start(leaves, k) + |leaves[k]|
  {
    assert leaves[..k + 1][..k] == leaves[..k];
  }

  lemma StartAll(leaves: seq<Bytes>)
    ensures Start(leaves, |leaves|) == |Flat(leaves)|
  {
    assert leaves[..|leaves|] == leaves;
  }

  lemma StartZero(leaves: seq<Bytes>)
    ensures Start(leaves, 0) == 0
  {
  }

  // Start depends only on the lengths of the leaves before k.
  lemma {:induction false} StartSameLengths(a: seq<Bytes>, b: seq<Bytes>, k: nat)
    requires k <= |a| && k <= |b|
    requires forall i :: 0 <= i < k ==> |a[i]| == |b[i]|
    ensures Start(a, k) == Start(b, k)
  {
    if k > 0 {
      StartSameLengths(a, b, k - 1);
      StartNext(a, k - 1);
      StartNext(b, k - 1);
    } else {
      assert a[..0] == b[..0];
    }
  }

  lemma {:induction false} StartMonotone(leaves: seq<Bytes>, i: nat, j: nat)
    requires i <= j <= |leaves|
    ensures Start(leaves, i) <= Start(leaves, j)
    decreases j - i
  {
    if i < j {
      StartMonotone(leaves, i, j - 1);
      StartNext(leaves, j - 1);
    }
  }

  // Every leaf but the last is exactly maxSize long, the last at most that.
  predicate Packed(leaves: seq<Bytes>, maxSize: nat) {
    && 0 < |leaves|
    && 0 < maxSize
    && (forall i :: 0 <= i < |leaves| - 1 ==> |leaves[i]| == maxSize)
    && |leaves[|leaves| - 1]| <= maxSize
  }

  lemma PackedPositive(leaves: seq<Bytes>, maxSize: nat)
    requires Packed(leaves, maxSize)
    ensures maxSize > 0 && leaves != []
  {
  }

  // A packed file has at least one byte for every leaf before the last.
  lemma {:induction false} PackedCount(leaves: seq<Bytes>, maxSize: nat)
    requires Packed(leaves, maxSize)
    ensures |leaves| - 1 <= Start(leaves, |leaves| - 1)
  {
    if |leaves| > 1 {
      var init := leaves[..|leaves| - 1];
      PackedCount(init, maxSize);
      assert init[..|init| - 1] == leaves[..|leaves| - 2];
      StartNext(leaves, |leaves| - 2);
    }
  }

  lemma {:induction false} PackedStart(leaves: seq<Bytes>, maxSize: nat, i: nat)
    requires Packed(leaves, maxSize) && i < |leaves|
    ensures Start(leaves, i) == i * maxSize
  {
    if i > 0 {
      PackedStart(leaves, maxSize, i - 1);
      StartNext(leaves, i - 1);
    }
  }

  // The leaf of a packed file of n leaves that holds offset x, the last one beyond the end.
  function LeafAt(x: nat, n: nat, maxSize: nat): int
    requires maxSize > 0
  {
    Min(x / maxSize, n - 1)
  }

  lemma Multiples(a: nat, b: nat, d: nat)
    ensures a <= b ==> a * d <= b * d
  {
  }

  lemma Quotient(x: nat, k: nat, d: nat)
    requires k * d <= x < (k + 1) * d
    ensures x / d == k
  {
    Multiples(x / d + 1, k, d);
    Multiples(k + 1, x / d, d);
  }

  lemma QuotientAtLeast(x: nat, k: nat, d: nat)
    requires d > 0 && k * d <= x
    ensures k <= x / d
  {
    Multiples(x / d + 1, k, d);
  }

  lemma LeafIs(leaves: seq<Bytes>, maxSize: nat, k: nat, x: nat)
    requires Packed(leaves, maxSize) && k < |leaves| && Start(leaves, k) <= x
    requires k < |leaves| - 1 ==> x < Start(leaves, k + 1)
    ensures k == LeafAt(x, |leaves|, maxSize)
  {
    PackedStart(leaves, maxSize, k);
    if k < |leaves| - 1 {
      PackedStart(leaves, maxSize, k + 1);
      Quotient(x, k, maxSize);
    } else {
      QuotientAtLeast(x, k, maxSize);
    }
  }

  // The leaf of a packed file that holds the last byte before x.
  lemma LeafBefore(leaves: seq<Bytes>, maxSize: nat, k: nat, x: nat)
    requires Packed(leaves, maxSize) && EndsIn(leaves, k, x)
    ensures k == (x - 1) / maxSize
  {
    PackedStart(leaves, maxSize, k);
    assert (k + 1) * maxSize == k * maxSize + maxSize;
    Quotient(x - 1, k, maxSize);
  }

  // The last byte before x is in leaf k.
  predicate EndsIn(leaves: seq<Bytes>, k: nat, x: nat) {
    k < |leaves| && Start(leaves, k) < x <= Start(leaves, k) + |leaves[k]|
  }

  lemma StillEnds(leaves: seq<Bytes>, more: seq<Bytes>, k: nat, x: nat)
    requires leaves <= more
    ensures EndsIn(leaves, k, x) ==> EndsIn(more, k, x)
  {
    if k < |leaves| { assert leaves[..k] == more[..k]; }
  }

  // The leaves of a multi-block file an operation goes to: none, those from lo up to hi, or the one
  // it cuts, after which all others go.
  datatype Reach = Nowhere | Leaves(lo: int, hi: int) | Cut(k: int)

  function WriteReach(len: nat, off: nat, n: nat, maxSize: nat): Reach
    requires maxSize > 0
  {
    if len == 0 then Nowhere else Leaves(LeafAt(off, n, maxSize), (off + len - 1) / maxSize + 1)
  }

  // For a file of size bytes in n leaves.
  function ReachOf(op: FileOp, size: nat, n: nat, maxSize: nat, maxFileBytes: nat): Reach
    requires maxSize > 0
  {
    match op
    case WriteOp(data, off) => if off + |data| > maxFileBytes then Nowhere else WriteReach(|data|, off, n, maxSize)
    case TruncateOp(newSize) =>
      if newSize < size then Cut(LeafAt(newSize, n, maxSize))
      else if newSize > maxFileBytes then Nowhere
      else WriteReach(newSize - size, size, n, maxSize)
  }

  lemma NotTooBig(f: Bytes, op: FileOp, n: nat, maxSize: nat, maxFileBytes: nat)
    ensures maxSize > 0 && ReachOf(op, |f|, n, maxSize, maxFileBytes) != Nowhere ==> !TooBig(f, op, maxFileBytes)
  {
  }

  // How many leaves there are afterwards.
  function CountAfter(n: nat, reach: Reach): int {
    match reach
    case Nowhere => n
    case Leaves(_, hi) => Max(n, hi)
    case Cut(k) => k + 1
  }

  // What becomes of the leaves a sync captured: how many of them the file still has, which ones were
  // written to and so are recorded, and which ones were cut.
  datatype Trail = Trail(kept: int, recorded: set<int>, cut: set<int>)

  function Between(lo: int, hi: int): (s: set<int>)
    ensures forall j :: j in s <==> lo <= j < hi
    decreases hi - lo
  {
    if hi <= lo then {} else Between(lo, hi - 1) + {hi - 1}
  }

  function Follow(t: Trail, reach: Reach): Trail {
    match reach
    case Nowhere => t
    case Leaves(lo, hi) => t.(recorded := t.recorded + Between(lo, Min(hi, t.kept)))
    case Cut(k) => Trail(Min(t.kept, k + 1), t.recorded, if k < t.kept then t.cut + {k} else t.cut)
  }

  // The captured leaves the file still has are no longer than captured unless they were written to,
  // and shorter if they were cut; a leaf that was cut and not written to is the last one.
  ghost predicate Lengths(t: Trail, leaves: seq<Bytes>, captured: seq<Bytes>) {
    forall j :: 0 <= j < t.kept && j !in t.recorded ==>
      && j < |leaves| && j < |captured| && |leaves[j]| <= |captured[j]|
      && (j in t.cut ==> |leaves[j]| < |captured[j]| && |leaves| == j + 1)
  }

  lemma PackedLength(leaves: seq<Bytes>, maxSize: nat, j: nat)
    requires Packed(leaves, maxSize) && j < |leaves|
    ensures |leaves[j]| == if j < |leaves| - 1 then maxSize else |Flat(leaves)| - j * maxSize
    ensures j * maxSize <= |Flat(leaves)|
  {
    PackedStart(leaves, maxSize, j);
    StartMonotone(leaves, j, |leaves|);
    StartAll(leaves);
    if j == |leaves| - 1 { StartNext(leaves, j); }
  }

  lemma ApplyLength(f: Bytes, op: FileOp, n: nat, maxSize: nat, maxFileBytes: nat)
    requires maxSize > 0
    ensures var g := ApplyOp(f, op, maxFileBytes);
      match ReachOf(op, |f|, n, maxSize, maxFileBytes)
      case Nowhere => |g| == |f|
      case Cut(_) => op.TruncateOp? && |g| == op.size < |f|
      case Leaves(lo, hi) => (|g| == |f| || hi == (|g| - 1) / maxSize + 1) && |g| > 0 && |f| <= |g|
  {
  }

  // A write that stays before leaf j, the last one, leaves the length of the file alone.
  lemma StaysBefore(len: nat, len': nat, hi: int, j: nat, maxSize: nat)
    requires maxSize > 0 && hi <= j && len <= len' && len' > 0 && j * maxSize <= len
    requires len' == len || hi == (len' - 1) / maxSize + 1
    ensures len' == len
  {
    if len' > len { QuotientAtLeast(len' - 1, j, maxSize); }
  }

  lemma LengthAt(t: Trail, leaves: seq<Bytes>, captured: seq<Bytes>, j: nat)
    requires Lengths(t, leaves, captured)
    ensures j < t.kept && j !in t.recorded ==>
      && j < |leaves| && j < |captured| && |leaves[j]| <= |captured[j]|
      && (j in t.cut ==> |leaves[j]| < |captured[j]| && |leaves| == j + 1)
  {
  }

  lemma LeafAtMost(op: FileOp, size: nat, n: nat, maxSize: nat, maxFileBytes: nat)
    requires maxSize > 0 && n > 0
    ensures match ReachOf(op, size, n, maxSize, maxFileBytes)
      case Nowhere => true
      case Leaves(lo, _) => lo <= n - 1
      case Cut(k) =>
        && op.TruncateOp? && op.size < size && 0 <= k <= n - 1
        && (k < n - 1 ==> op.size - k * maxSize < maxSize)
  {
    if op.TruncateOp? { Remainder(op.size, maxSize); }
  }

  lemma Remainder(x: nat, d: nat)
    requires d > 0
    ensures 0 <= x - x / d * d < d
  {
  }

  // Leaf j, captured, not written to by the operation, and still there.
  lemma LengthNext(t: Trail, op: FileOp, leaves: seq<Bytes>, leaves': seq<Bytes>, captured: seq<Bytes>, maxSize: nat,
                   maxFileBytes: nat, j: nat)
    requires Packed(leaves, maxSize) && Packed(leaves', maxSize) && Lengths(t, leaves, captured)
    requires Flat(leaves') == ApplyOp(Flat(leaves), op, maxFileBytes) && t.kept <= |leaves|
    requires var reach := ReachOf(op, |Flat(leaves)|, |leaves|, maxSize, maxFileBytes);
      |leaves'| == CountAfter(|leaves|, reach) && j < Follow(t, reach).kept && j !in Follow(t, reach).recorded
    ensures var reach := ReachOf(op, |Flat(leaves)|, |leaves|, maxSize, maxFileBytes);
      && j < |leaves'| && j < |captured| && |leaves'[j]| <= |captured[j]|
      && (j in Follow(t, reach).cut ==> |leaves'[j]| < |captured[j]| && |leaves'| == j + 1)
  {
    hide Flat, ApplyOp, Packed, Lengths, LeafAt, ReachOf, Start;
    PackedPositive(leaves, maxSize);
    LengthAt(t, leaves, captured, j);
    LeafAtMost(op, |Flat(leaves)|, |leaves|, maxSize, maxFileBytes);
    var len, len' := |Flat(leaves)|, |Flat(leaves')|;
    ApplyLength(Flat(leaves), op, |leaves|, maxSize, maxFileBytes);
    PackedLength(leaves, maxSize, j);
    PackedLength(leaves', maxSize, j);
    match ReachOf(op, len, |leaves|, maxSize, maxFileBytes)
    case Nowhere =>
    case Leaves(lo, hi) =>
      if j == |leaves| - 1 { StaysBefore(len, len', hi, j, maxSize); }
    case Cut(k) =>
  }

  lemma LengthsNext(t: Trail, op: FileOp, leaves: seq<Bytes>, leaves': seq<Bytes>, captured: seq<Bytes>, maxSize: nat,
                    maxFileBytes: nat)
    requires Packed(leaves, maxSize) && Packed(leaves', maxSize) && Lengths(t, leaves, captured)
    requires Flat(leaves') == ApplyOp(Flat(leaves), op, maxFileBytes) && t.kept <= |leaves|
    requires |leaves'| == CountAfter(|leaves|, ReachOf(op, |Flat(leaves)|, |leaves|, maxSize, maxFileBytes))
    ensures Lengths(Follow(t, ReachOf(op, |Flat(leaves)|, |leaves|, maxSize, maxFileBytes)), leaves', captured)
  {
    hide Flat, ApplyOp, Packed, ReachOf;
    PackedPositive(leaves, maxSize);
    var t' := Follow(t, ReachOf(op, |Flat(leaves)|, |leaves|, maxSize, maxFileBytes));
    forall j | 0 <= j < t'.kept && j !in t'.recorded
      ensures j < |leaves'| && j < |captured| && |leaves'[j]| <= |captured[j]|
      ensures j in t'.cut ==> |leaves'[j]| < |captured[j]| && |leaves'| == j + 1
    {
      LengthNext(t, op, leaves, leaves', captured, maxSize, maxFileBytes, j);
    }
  }

  // The trail of a run of operations on a file of n leaves, and how many leaves it has in the end.
  function TrailOf(f: Bytes, n: nat, ops: seq<FileOp>, maxSize: nat, maxFileBytes: nat): (Trail, int)
    requires maxSize > 0
  {
    if ops == [] then (Trail(n, {}, {}), n)
    else
      var init := ops[..|ops| - 1];
      var (t, k) := TrailOf(f, n, init, maxSize, maxFileBytes);
      if k < 0 then (t, k)
      else
        var reach := ReachOf(ops[|ops| - 1], |ApplyOps(f, init, maxFileBytes)|, k, maxSize, maxFileBytes);
        (Follow(t, reach), CountAfter(k, reach))
  }

  // Every captured leaf that a truncate of the run cuts is one that a write of the run goes to.
  predicate CutsRecorded(f: Bytes, n: nat, ops: seq<FileOp>, maxSize: nat, maxFileBytes: nat)
    requires maxSize > 0
  {
    var t := TrailOf(f, n, ops, maxSize, maxFileBytes).0;
    t.cut <= t.recorded
  }

  // `cur` is `f` with the first `copied` bytes of `data` laid over it at `off`; while a
  // hole is still being filled `cur` may end short of `off`.
  ghost predicate PartlyWritten(f: Bytes, data: Bytes, off: nat, copied: nat, cur: Bytes) {
    && copied <= |data|
    && |f| <= |cur| <= Max(|f|, off + |data|)
    && (copied > 0 ==> off + copied <= |cur|)
    && forall i :: 0 <= i < |cur| ==>
         cur[i] == if off <= i < off + copied then data[i - off] else if i < |f| then f[i] else 0
  }

  lemma NothingWritten(f: Bytes, data: Bytes, off: nat)
    ensures PartlyWritten(f, data, off, 0, f)
  {
  }

  lemma WrittenBound(f: Bytes, data: Bytes, off: nat, copied: nat, cur: Bytes)
    requires PartlyWritten(f, data, off, copied, cur)
    ensures copied <= |data|
  {
  }

  lemma FullyWritten(f: Bytes, data: Bytes, off: nat, cur: Bytes)
    requires data != []
    requires PartlyWritten(f, data, off, |data|, cur)
    ensures cur == WriteAt(f, data, off)
  {
    var all := WriteAt(f, data, off);
    assert |cur| == Max(|f|, off + |data|) == |all|;
    forall i | 0 <= i < |cur| ensures cur[i] == all[i] {
    }
  }

  // What CopyUntilSplit leaves in a block holding `before`: `n` bytes of `data` at `at`,
  // zeros wherever the block grew past its old end.
  ghost predicate CopiedInto(before: Bytes, data: Bytes, at: nat, n: nat, after: Bytes) {
    && n <= |data|
    && |before| <= |after|
    && (n > 0 ==> at + n <= |after|)
    && forall i :: 0 <= i < |after| ==>
         after[i] == if at <= i < at + n then data[i - at] else if i < |before| then before[i] else 0
  }

  // One round of the write loop: copying into leaf k moves the file from `copied` bytes
  // written to `copied + n`.
  lemma WriteRound(f: Bytes, data: Bytes, off: nat, copied: nat, leaves: seq<Bytes>, k: nat, n: nat, b: Bytes)
    requires k < |leaves|
    requires PartlyWritten(f, data, off, copied, Flat(leaves))
    requires Start(leaves, k) <= off + copied
    requires CopiedInto(leaves[k], data[copied..], off + copied - Start(leaves, k), n, b)
    requires k < |leaves| - 1 ==> |b| == |leaves[k]|
    requires k < |leaves| - 1 ==> off + copied < Start(leaves, k + 1)
    requires |b| <= Max(|leaves[k]|, off + |data| - Start(leaves, k))
    requires n == 0 && copied > 0 ==> |b| == |leaves[k]|
    ensures PartlyWritten(f, data, off, copied + n, Flat(leaves[k := b]))
  {
    hide Flat, PartlyWritten, CopiedInto;
    var before, after := Flat(leaves[..k]), Flat(leaves[k + 1..]);
    FlatSplit(leaves, k);
    FlatUpdate(leaves, k, b);
    if k == |leaves| - 1 { FlatNone(leaves[k + 1..]); } else { StartNext(leaves, k); }
    CopyBetween(f, data, off, copied, before, leaves[k], after, n, b);
  }

  lemma FlatNone(leaves: seq<Bytes>)
    requires leaves == []
    ensures Flat(leaves) == []
  {
  }

  // The same on the bytes before the leaf, in it, and after it.
  lemma CopyBetween(f: Bytes, data: Bytes, off: nat, copied: nat, before: Bytes, leaf: Bytes, after: Bytes, n: nat,
                    b: Bytes)
    requires PartlyWritten(f, data, off, copied, before + leaf + after) && |before| <= off + copied
    requires CopiedInto(leaf, data[copied..], off + copied - |before|, n, b)
    requires after != [] ==> |b| == |leaf| && off + copied < |before| + |leaf|
    requires |b| <= Max(|leaf|, off + |data| - |before|) && (n == 0 && copied > 0 ==> |b| == |leaf|)
    ensures PartlyWritten(f, data, off, copied + n, before + b + after)
  {
    var cur, next, s := before + leaf + after, before + b + after, |before|;
    forall i | 0 <= i < |next|
      ensures next[i] == if off <= i < off + copied + n then data[i - off] else if i < |f| then f[i] else 0
    {
      if i < s {
        assert next[i] == cur[i];
      } else if i < s + |b| {
        assert next[i] == b[i - s] && (i < s + |leaf| ==> cur[i] == leaf[i - s]);
      } else {
        assert next[i] == after[i - s - |b|] == cur[i];
      }
    }
  }

  lemma TruncateSame(f: Bytes)
    ensures TruncateTo(f, |f|) == f
  {
  }

  // Extending by a write of zeros at the end is what an extending truncate does.
  lemma ExtendByZeros(f: Bytes, size: nat)
    requires |f| < size
    ensures WriteAt(f, Zeros(size - |f|), |f|) == TruncateTo(f, size)
  {
  }

  // Cutting the leaf that holds the new end and dropping the leaves after it.
  function CutLeaves(leaves: seq<Bytes>, k: nat, size: nat): seq<Bytes>
    requires k < |leaves| && Start(leaves, k) <= size <= Start(leaves, k) + |leaves[k]|
  {
    leaves[..k] + [leaves[k][..size - Start(leaves, k)]]
  }

  lemma CutIsTruncate(leaves: seq<Bytes>, k: nat, size: nat, maxSize: nat)
    requires Packed(leaves, maxSize)
    requires k < |leaves| && Start(leaves, k) <= size < Start(leaves, k) + |leaves[k]|
    ensures Flat(CutLeaves(leaves, k, size)) == TruncateTo(Flat(leaves), size)
    ensures Packed(CutLeaves(leaves, k, size), maxSize)
    ensures size < |Flat(leaves)|
  {
    hide Packed, Flat;
    FlatSplit(leaves, k);
    FlatAppend(leaves[..k], [leaves[k][..size - Start(leaves, k)]]);
    FlatOne(leaves[k][..size - Start(leaves, k)]);
    CutPacked(leaves, k, size, maxSize);
  }

  lemma CutPacked(leaves: seq<Bytes>, k: nat, size: nat, maxSize: nat)
    requires Packed(leaves, maxSize) && k < |leaves| && Start(leaves, k) <= size < Start(leaves, k) + |leaves[k]|
    ensures Packed(CutLeaves(leaves, k, size), maxSize)
  {
    hide Flat, Start;
  }

  // Where a file of these leaves ends, seen from the leaf that an offset falls in.
  lemma LocateEnd(leaves: seq<Bytes>, k: nat, off: nat)
    requires k < |leaves| && Start(leaves, k) <= off
    requires k < |leaves| - 1 ==> off < Start(leaves, k + 1)
    ensures Start(leaves, k) + |leaves[k]| <= |Flat(leaves)|
    ensures Start(leaves, k) + |leaves[k]| <= off ==>
      k == |leaves| - 1 && |Flat(leaves)| == Start(leaves, k) + |leaves[k]|
  {
    StartNext(leaves, k);
    StartMonotone(leaves, k + 1, |leaves|);
    StartAll(leaves);
  }

  lemma FlatSlice(leaves: seq<Bytes>, k: nat, from: nat, n: nat)
    requires k < |leaves| && Start(leaves, k) <= from && from + n <= Start(leaves, k) + |leaves[k]|
    ensures from + n <= |Flat(leaves)|
    ensures Flat(leaves)[from..from + n] == leaves[k][from - Start(leaves, k)..from - Start(leaves, k) + n]
  {
    hide Flat;
    FlatSplit(leaves, k);
    SliceMiddle(Flat(leaves[..k]), leaves[k], Flat(leaves[k + 1..]), from, n);
  }

  lemma SliceMiddle(before: Bytes, x: Bytes, after: Bytes, from: nat, n: nat)
    requires |before| <= from && from + n <= |before| + |x|
    ensures (before + x + after)[from..from + n] == x[from - |before|..from - |before| + n]
  {
  }

  // One round of the read loop: r bytes are read, and the next t of them are copied.
  lemma ReadRound(f: Bytes, off: nat, buf: Bytes, r: nat, t: nat)
    requires r + t <= |buf| && off + r + t <= |f| && 0 < t
    requires |ReadAt(f, off, r)| == r
    ensures |ReadAt(f, off, r + t)| == r + t
    ensures Splice(Splice(buf, 0, ReadAt(f, off, r)), r, f[off + r..off + r + t]) ==
      Splice(buf, 0, ReadAt(f, off, r + t))
  {
    hide Splice;
    var x, y := f[off..off + r], f[off + r..off + r + t];
    assert x + y == f[off..off + r + t];
    SpliceTwice(buf, x, y);
  }

  lemma SpliceTwice(buf: Bytes, x: Bytes, y: Bytes)
    requires |x| + |y| <= |buf|
    ensures Splice(Splice(buf, 0, x), |x|, y) == Splice(buf, 0, x + y)
  {
    var once := Splice(buf, 0, x);
    assert once == x + buf[|x|..];
    assert once[..|x|] == x && once[|x| + |y|..] == buf[|x| + |y|..];
  }

  lemma ReadEnd(f: Bytes, off: nat, r: nat, n: nat)
    requires |f| <= off + r && r <= n && |ReadAt(f, off, r)| == r
    ensures ReadAt(f, off, n) == ReadAt(f, off, r)
  {
  }

  lemma ReadNothing(f: Bytes, off: nat, buf: Bytes)
    ensures ReadAt(f, off, 0) == [] && Splice(buf, 0, []) == buf
  {
  }
}
