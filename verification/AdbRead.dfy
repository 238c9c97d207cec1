// Reading over adb (RomUpdateAdbV1._map_read and read): which node a range is
// read from, and how the bytes of the range are found behind whatever the
// recovery shell prints first.

module AdbReads {
  import opened Disk
  import opened Outcomes
  import opened Layout
  import opened UpdateLayout

  /** The range a node gives access to. */
  ghost predicate IsNode(lay: Layout, node: Region) {
    || node == lay.gptPrimary || node == lay.gptTail || exists n :: node == lay.parts(n)
  }

  ghost predicate Readable(lay: Layout, r: Region) {
    exists node :: IsNode(lay, node) && r.Inside(node)
  }

  /** The node to read `r` from and the byte offset to skip in it. The GPT is
      read from the whole-disk node, which starts at byte 0. */
  method MapRead(lay: Layout, r: Region) returns (o: Outcome, base: int, off: int)
    ensures o.Pass? <==> Readable(lay, r)
    ensures o.Pass? ==> base + off == r.Lo()
    ensures o.Pass? ==> base == 0 || exists n :: base == lay.parts(n).Lo() && r.Inside(lay.parts(n))
  {
    AllPartsListed();
    for i := 0 to |ALL_PARTS|
      invariant forall k :: 0 <= k < i ==> !r.Inside(lay.parts(ALL_PARTS[k]))
    {
      var node := lay.parts(ALL_PARTS[i]);
      if r.Inside(node) {
        assert IsNode(lay, node);
        return Pass, node.Lo(), (r.start - node.start) * SECTOR;
      }
    }
    if r.Inside(lay.gptPrimary) || r.Inside(lay.gptTail) {
      assert IsNode(lay, lay.gptPrimary) && IsNode(lay, lay.gptTail);
      return Pass, 0, r.Lo();
    }
    forall n ensures !r.Inside(lay.parts(n)) {
      assert n in ALL_PARTS;
      var k :| 0 <= k < |ALL_PARTS| && ALL_PARTS[k] == n;
    }
    o, base, off := Stopped(DeviceFailed), 0, 0;
  }

  /** Every region the protected check hashes can be read over adb. */
  lemma ProtectedReadable(lay: Layout, v: Write, wipe: bool)
    requires lay.Valid() && IsProtected(lay, v, wipe)
    ensures Readable(lay, v.region)
  {
    var node := match v.tag
      case GptPrimary => lay.gptPrimary
      case GptTail => lay.gptTail
      case Part(n) => lay.parts(n)
      case MetadataAfterZero => lay.parts(Metadata)
      case _ => lay.parts(Userdata);
    assert IsNode(lay, node) && v.region.Inside(node);
  }

  // ---- the marker ----

  ghost predicate MarkAt(s: Bytes, mark: Bytes, at: nat) { at + |mark| <= |s| && s[at..at + |mark|] == mark }

  ghost predicate FirstMark(s: Bytes, mark: Bytes, at: nat) {
    MarkAt(s, mark, at) && forall k :: 0 <= k < at ==> !MarkAt(s, mark, k)
  }

  /** An occurrence in a prefix is the same occurrence in the whole. */
  lemma MarkInPrefix(s: Bytes, mark: Bytes, cut: nat, at: nat)
    requires cut <= |s| && at + |mark| <= cut
    ensures MarkAt(s[..cut], mark, at) <==> MarkAt(s, mark, at)
  {
    assert s[..cut][at..at + |mark|] == s[at..at + |mark|];
  }

  /** Looks for the first occurrence (`in` and `index`). */
  method FindMark(s: Bytes, mark: Bytes) returns (found: bool, at: nat)
    ensures found ==> FirstMark(s, mark, at)
    ensures !found ==> forall k: nat :: !MarkAt(s, mark, k)
  {
    at := 0;
    while at + |mark| <= |s|
      invariant forall k :: 0 <= k < at ==> !MarkAt(s, mark, k)
    {
      if s[at..at + |mark|] == mark { return true, at; }
      at := at + 1;
    }
    found := false;
  }

  const HEAD_BLOCK: nat := 4096
  const HEAD_LIMIT: nat := 65536
  const DATA_BLOCK: nat := 0x10_0000

  /** How many bytes one read of the pipe returns: none only at its end. */
  function Piped(cuts: nat -> nat, turn: nat, most: nat, rest: nat): (n: nat)
    requires most > 0
    ensures n <= rest && n <= most && (n == 0 <==> rest == 0)
  {
    var c := if cuts(turn) == 0 then 1 else cuts(turn);
    var capped := if c < most then c else most;
    if capped < rest then capped else rest
  }

  /** Drops everything up to and including the first marker and keeps the rest.
      The result does not depend on how the pipe cuts the stream, not even
      through the middle of a marker. */
  method ReadBehindMark(pipe: Bytes, mark: Bytes, n: nat, rcOk: bool, cuts: nat -> nat)
    returns (o: Outcome, out: Bytes, ghost at: nat)
    requires |mark| > 0
    ensures o.Pass? ==> FirstMark(pipe, mark, at) && out == pipe[at + |mark|..] && |out| == n && rcOk
    ensures rcOk ==> forall a: nat ::
      FirstMark(pipe, mark, a) && a + |mark| <= HEAD_LIMIT && |pipe| - a - |mark| == n ==> o.Pass?
    ensures o.Stopped? ==> o.why == DeviceFailed
  {
    out, at := [], 0;
    var head: Bytes, turn, found := [], 0, false;
    var where: nat := 0;
    while !found
      invariant |head| <= |pipe| && head == pipe[..|head|]
      invariant found ==> FirstMark(head, mark, where)
      invariant !found ==> forall k: nat :: !MarkAt(head, mark, k)
      decreases |pipe| - |head|, !found
    {
      var b := Piped(cuts, turn, HEAD_BLOCK, |pipe| - |head|);
      turn := turn + 1;
      if b == 0 || |head| > HEAD_LIMIT {
        forall a: nat | FirstMark(pipe, mark, a) && a + |mark| <= HEAD_LIMIT ensures false {
          MarkInPrefix(pipe, mark, |head|, a);
        }
        return Stopped(DeviceFailed), out, at;
      }
      head := head + pipe[|head|..|head| + b];
      found, where := FindMark(head, mark);
    }
    FirstInWhole(pipe, mark, |head|, where);
    at := where;
    out := head[where + |mark|..];
    var next := |head|;
    while next < |pipe|
      invariant next <= |pipe| && out == pipe[at + |mark|..next]
    {
      var b := Piped(cuts, turn, DATA_BLOCK, |pipe| - next);
      turn, out, next := turn + 1, out + pipe[next..next + b], next + b;
    }
    assert forall a: nat :: FirstMark(pipe, mark, a) ==> a == at;
    o := if !rcOk || |out| != n then Stopped(DeviceFailed) else Pass;
  }

  lemma FirstInWhole(s: Bytes, mark: Bytes, cut: nat, at: nat)
    requires cut <= |s| && FirstMark(s[..cut], mark, at)
    ensures FirstMark(s, mark, at)
  {
    forall k | 0 <= k <= at ensures MarkAt(s, mark, k) <==> MarkAt(s[..cut], mark, k) {
      MarkInPrefix(s, mark, cut, k);
    }
  }
}
