/**
 * The byte cache of `hw_get_random_bytes`: a 16-byte FIFO, held as four
 * 32-bit words in a union with 16 bytes, and a cursor `fifo_pos` that is
 * kept between calls. The FIFO is refilled with a 128-bit read exactly when
 * the cursor is 0; each iteration hands out one byte and advances the cursor
 * modulo 16.
 *
 * `Serve` specifies a call as a function of the device state and the cache;
 * the lemmas say which byte lands where, how many reads a call costs, and
 * that successive calls hand out the engine's bytes in order, none skipped
 * and none repeated.
 */
module Eip76dFifo {
  import opened Eip76dRegs
  import opened Eip76dDevice
  import opened Eip76dDriver

  // ---------------------------------------------------------------------
  // The union: four words seen as sixteen bytes (little-endian target)
  // ---------------------------------------------------------------------

  /** Byte `k` of a word, counted from the least significant end. */
  function ByteAt(w: Word, k: nat): (b: Byte)
    requires k < 4
  {
    match k
    case 0 => (w & 0xff) as Byte
    case 1 => ((w >> 8) & 0xff) as Byte
    case 2 => ((w >> 16) & 0xff) as Byte
    case 3 => ((w >> 24) & 0xff) as Byte
  }

  /** The word stored in four bytes of memory, least significant byte first. */
  function LeWord(b0: Byte, b1: Byte, b2: Byte, b3: Byte): (w: Word) {
    (b0 as Word) | ((b1 as Word) << 8) | ((b2 as Word) << 16) | ((b3 as Word) << 24)
  }

  /** Reading a word's four bytes back as a word gives the word: the byte view loses nothing. */
  lemma LeBytesRoundTrip(w: Word)
    ensures LeWord(ByteAt(w, 0), ByteAt(w, 1), ByteAt(w, 2), ByteAt(w, 3)) == w
  {
  }

  /** Word `i` of a 128-bit result, `fifo.val[i]`. */
  function WordAt(val: Block, i: nat): (w: Word)
    requires i < 4
  {
    match i
    case 0 => val.w0
    case 1 => val.w1
    case 2 => val.w2
    case 3 => val.w3
  }

  /** `fifo.byte[j]`: the bytes of word 0, then of word 1, 2 and 3. */
  function FifoByte(val: Block, j: nat): (b: Byte)
    requires j < 16
  {
    if j < 4 then ByteAt(val.w0, j)
    else if j < 8 then ByteAt(val.w1, j - 4)
    else if j < 12 then ByteAt(val.w2, j - 8)
    else ByteAt(val.w3, j - 12)
  }

  /** `fifo.byte` as a view of `fifo.val`. */
  function FifoBytes(val: Block): (b: seq<Byte>)
  {
    seq(16, j requires 0 <= j < 16 => FifoByte(val, j))
  }

  /** Byte `4 * i + k` of the union is byte `k` of word `i`, counted from the least significant end. */
  lemma FifoByteLayout(val: Block, i: nat, k: nat)
    requires i < 4 && k < 4
    ensures FifoBytes(val)[4 * i + k] == ByteAt(WordAt(val, i), k)
  {
    var j := 4 * i + k;
    assert FifoBytes(val)[j] == FifoByte(val, j);
    if i == 0 {
      assert j == k;
    } else if i == 1 {
      assert j == 4 + k;
    } else if i == 2 {
      assert j == 8 + k;
    } else {
      assert j == 12 + k;
    }
  }

  /** Reading four bytes of the union back as a word gives the word stored there: no word is split or mixed. */
  lemma FifoBytesHoldWords(val: Block, i: nat)
    requires i < 4
    ensures var b := FifoBytes(val); LeWord(b[4 * i], b[4 * i + 1], b[4 * i + 2], b[4 * i + 3]) == WordAt(val, i)
  {
    FifoByteLayout(val, i, 0);
    FifoByteLayout(val, i, 1);
    FifoByteLayout(val, i, 2);
    FifoByteLayout(val, i, 3);
    LeBytesRoundTrip(WordAt(val, i));
  }

  // ---------------------------------------------------------------------
  // How many refills a call makes
  // ---------------------------------------------------------------------

  /** The cursor after one byte is handed out from cursor `p < 16`, wrapping from 15 to 0. */
  function NextPos(p: nat): (q: nat) {
    if p == 15 then 0 else p + 1
  }

  /** On a cursor in range, `NextPos` is an increment followed by reduction modulo 16. */
  lemma NextPosIsIncrementMod16(p: nat)
    requires p < 16
    ensures NextPos(p) == (p + 1) % 16
  {
  }

  /** The number of refills a call of length `len` from cursor `p` makes: one per step that starts at cursor 0. */
  function RefillsNeeded(p: nat, len: nat): (m: nat)
    decreases len
  {
    if len == 0 then 0 else (if p == 0 then 1 else 0) + RefillsNeeded(NextPos(p), len - 1)
  }

  /** From a cursor in range, the refills are the multiples of 16 in [p, p + len). */
  lemma {:induction false} RefillsClosedForm(p: nat, len: nat)
    requires p < 16
    ensures RefillsNeeded(p, len) == (p + len + 15) / 16 - (p + 15) / 16
    decreases len
  {
    if len > 0 {
      RefillsClosedForm(NextPos(p), len - 1);
      ClosedFormStep(p, len);
    }
  }

  /** The arithmetic of one step of `RefillsClosedForm`. */
  lemma ClosedFormStep(p: nat, len: nat)
    requires p < 16 && len > 0
    ensures (if p == 0 then 1 else 0) + ((NextPos(p) + len - 1 + 15) / 16 - (NextPos(p) + 15) / 16) ==
            (p + len + 15) / 16 - (p + 15) / 16
  {
    if p == 15 {
      assert (len + 14) / 16 == (len + 30) / 16 - 1;
    }
  }

  /** A call never makes more than one read per 16 bytes, rounded up, and exactly that many from cursor 0. */
  lemma RefillsBound(p: nat, len: nat)
    requires p < 16
    ensures RefillsNeeded(p, len) <= (len + 15) / 16
    ensures p == 0 ==> RefillsNeeded(p, len) == (len + 15) / 16
  {
    RefillsClosedForm(p, len);
  }

  // ---------------------------------------------------------------------
  // A call of hw_get_random_bytes, as a function
  // ---------------------------------------------------------------------

  /** `fifo` and `fifo_pos`. */
  datatype Cache = Cache(val: Block, pos: nat)

  /** What a call leaves in the cache, the bytes it writes, and how many results it reads. */
  datatype Served = Served(cache: Cache, out: seq<Byte>, refills: nat)

  /**
   * The bytes side of a call `hw_get_random_bytes(buf, len)` from cache `c`,
   * when the engine's next results are `rs[i], rs[i + 1], ...`: each step
   * refills from the next result when the cursor is 0, hands out the byte
   * under the cursor and advances it modulo 16.
   */
  function Serve(c: Cache, rs: seq<Block>, i: nat, len: nat): (r: Served)
    requires c.pos < 16 && i + RefillsNeeded(c.pos, len) <= |rs|
    ensures r.cache.pos < 16
    decreases len
  {
    if len == 0 then Served(c, [], 0)
    else
      var refill := c.pos == 0;
      var val := if refill then rs[i] else c.val;
      var rest := Serve(Cache(val, NextPos(c.pos)), rs, if refill then i + 1 else i, len - 1);
      Served(rest.cache, [FifoByte(val, c.pos)] + rest.out, rest.refills + (if refill then 1 else 0))
  }

  /** Advancing the cursor once and then `n` more times is advancing it `n + 1` times, modulo 16. */
  lemma NextPosThen(p: nat, n: nat)
    requires p < 16
    ensures (NextPos(p) + n) % 16 == (p + 1 + n) % 16
  {
  }

  /** A call writes `len` bytes. */
  lemma {:induction false} ServeLength(c: Cache, rs: seq<Block>, i: nat, len: nat)
    requires c.pos < 16 && i + RefillsNeeded(c.pos, len) <= |rs|
    ensures |Serve(c, rs, i, len).out| == len
    decreases len
  {
    if len > 0 {
      var val := if c.pos == 0 then rs[i] else c.val;
      ServeLength(Cache(val, NextPos(c.pos)), rs, if c.pos == 0 then i + 1 else i, len - 1);
    }
  }

  /** A call leaves the cursor `len` bytes further on, modulo 16. */
  lemma {:induction false} ServeEndPos(c: Cache, rs: seq<Block>, i: nat, len: nat)
    requires c.pos < 16 && i + RefillsNeeded(c.pos, len) <= |rs|
    ensures Serve(c, rs, i, len).cache.pos == (c.pos + len) % 16
    decreases len
  {
    if len > 0 {
      var val := if c.pos == 0 then rs[i] else c.val;
      ServeEndPos(Cache(val, NextPos(c.pos)), rs, if c.pos == 0 then i + 1 else i, len - 1);
      NextPosThen(c.pos, len - 1);
    }
  }

  /** A call reads exactly `RefillsNeeded` results. */
  lemma {:induction false} ServeRefills(c: Cache, rs: seq<Block>, i: nat, len: nat)
    requires c.pos < 16 && i + RefillsNeeded(c.pos, len) <= |rs|
    ensures Serve(c, rs, i, len).refills == RefillsNeeded(c.pos, len)
    decreases len
  {
    if len > 0 {
      var val := if c.pos == 0 then rs[i] else c.val;
      ServeRefills(Cache(val, NextPos(c.pos)), rs, if c.pos == 0 then i + 1 else i, len - 1);
    }
  }

  /** A call of length 0 hands out nothing, reads nothing and leaves the cache alone. */
  lemma ServeNothing(c: Cache, rs: seq<Block>, i: nat)
    requires c.pos < 16 && i <= |rs|
    ensures RefillsNeeded(c.pos, 0) == 0
    ensures Serve(c, rs, i, 0) == Served(c, [], 0)
  {
  }

  // ---------------------------------------------------------------------
  // The stream of bytes the cache hands out
  // ---------------------------------------------------------------------

  /** The bytes of the results from index `i` on, in the order the cache hands them out. */
  function FlattenFrom(rs: seq<Block>, i: nat): (b: seq<Byte>)
    ensures |b| == if i < |rs| then 16 * (|rs| - i) else 0
    decreases |rs| - i
  {
    if i >= |rs| then [] else FifoBytes(rs[i]) + FlattenFrom(rs, i + 1)
  }

  /**
   * The bytes the driver will hand out next, in order: what is left in the
   * cache (nothing when the cursor is 0), then the results from `i` on.
   */
  function Pending(c: Cache, rs: seq<Block>, i: nat): (b: seq<Byte>)
    requires c.pos < 16
  {
    (if c.pos == 0 then [] else FifoBytes(c.val)[c.pos..]) + FlattenFrom(rs, i)
  }

  /** What one iteration hands out is the first pending byte; the rest stays pending. */
  lemma ServeStepPending(c: Cache, rs: seq<Block>, i: nat)
    requires c.pos < 16 && (c.pos == 0 ==> i < |rs|)
    ensures var val := if c.pos == 0 then rs[i] else c.val;
      Pending(c, rs, i) ==
      [FifoByte(val, c.pos)] + Pending(Cache(val, NextPos(c.pos)), rs, if c.pos == 0 then i + 1 else i)
  {
    var val := if c.pos == 0 then rs[i] else c.val;
    var b := FifoBytes(val);
    if c.pos == 0 {
      assert b == [b[0]] + b[1..];
    } else if c.pos < 15 {
      assert b[c.pos..] == [b[c.pos]] + b[c.pos + 1..];
    } else {
      assert b[c.pos..] == [b[c.pos]];
    }
  }

  /**
   * A call hands out the first `len` pending bytes, and what is pending
   * afterwards is exactly the rest: no byte is skipped or handed out twice.
   */
  lemma {:induction false} ServeDeliversPending(c: Cache, rs: seq<Block>, i: nat, len: nat)
    requires c.pos < 16 && i + RefillsNeeded(c.pos, len) <= |rs|
    ensures len <= |Pending(c, rs, i)|
    ensures Serve(c, rs, i, len).out == Pending(c, rs, i)[..len]
    ensures Pending(Serve(c, rs, i, len).cache, rs, i + Serve(c, rs, i, len).refills) == Pending(c, rs, i)[len..]
    decreases len
  {
    if len > 0 {
      var val := if c.pos == 0 then rs[i] else c.val;
      var i1 := if c.pos == 0 then i + 1 else i;
      var c1 := Cache(val, NextPos(c.pos));
      ServeDeliversPending(c1, rs, i1, len - 1);
      ServeStepPending(c, rs, i);
      ConsSlices(FifoByte(val, c.pos), Pending(c1, rs, i1), len - 1);
    }
  }

  /** Slicing a sequence with one element in front. */
  lemma ConsSlices(b: Byte, s: seq<Byte>, k: nat)
    requires k <= |s|
    ensures ([b] + s)[..k + 1] == [b] + s[..k]
    ensures ([b] + s)[k + 1..] == s[k..]
  {
  }

  /** A longer call never makes fewer refills. */
  lemma {:induction false} RefillsMonotone(p: nat, a: nat, b: nat)
    requires a <= b
    ensures RefillsNeeded(p, a) <= RefillsNeeded(p, b)
    decreases a
  {
    if a > 0 {
      RefillsMonotone(NextPos(p), a - 1, b - 1);
    }
  }

  /**
   * The block in the union at step `k` of a call: the cached one until the
   * first refill, then the latest result read.
   */
  function BlockAt(c: Cache, rs: seq<Block>, i: nat, k: nat): (b: Block)
    requires c.pos < 16 && i + RefillsNeeded(c.pos, k + 1) <= |rs|
  {
    var m := RefillsNeeded(c.pos, k + 1);
    if m == 0 then c.val else rs[i + m - 1]
  }

  /** The cursor after `k` bytes are handed out from cursor `p`. */
  function PosAfter(p: nat, k: nat): (q: nat)
    requires p < 16
    ensures q < 16
    decreases k
  {
    if k == 0 then p else PosAfter(NextPos(p), k - 1)
  }

  /** `k` steps of the cursor from `p` land on `(p + k) % 16`. */
  lemma {:induction false} PosAfterIsMod16(p: nat, k: nat)
    requires p < 16
    ensures PosAfter(p, k) == (p + k) % 16
    decreases k
  {
    if k > 0 {
      PosAfterIsMod16(NextPos(p), k - 1);
      NextPosThen(p, k - 1);
      assert p + 1 + (k - 1) == p + k;
    }
  }

  /** Step `k` of a call adds a refill exactly when the cursor is 0 at the start of that step. */
  lemma {:induction false} RefillsStepUnderCursor(p: nat, k: nat)
    requires p < 16
    ensures RefillsNeeded(p, k + 1) == RefillsNeeded(p, k) + (if PosAfter(p, k) == 0 then 1 else 0)
    decreases k
  {
    if k > 0 {
      RefillsStepUnderCursor(NextPos(p), k - 1);
    }
  }

  /** A refill happens at step `k` of a call from cursor `p` if and only if `(p + k) % 16 == 0`. */
  lemma RefillIffCursorZero(p: nat, k: nat)
    requires p < 16
    ensures RefillsNeeded(p, k + 1) == RefillsNeeded(p, k) + 1 <==> (p + k) % 16 == 0
    ensures RefillsNeeded(p, k + 1) == RefillsNeeded(p, k) <==> (p + k) % 16 != 0
  {
    RefillsStepUnderCursor(p, k);
    PosAfterIsMod16(p, k);
  }

  /** Step `k` of a call is step `k - 1` of the call that follows the first step. */
  lemma BlockAtStep(c: Cache, rs: seq<Block>, i: nat, k: nat)
    requires c.pos < 16 && i + RefillsNeeded(c.pos, k + 1) <= |rs| && k > 0
    ensures var val := if c.pos == 0 then rs[i] else c.val;
      var i1 := if c.pos == 0 then i + 1 else i;
      i1 + RefillsNeeded(NextPos(c.pos), k) <= |rs| &&
      BlockAt(Cache(val, NextPos(c.pos)), rs, i1, k - 1) == BlockAt(c, rs, i, k)
  {
  }

  /** Output byte `k` of a call: the first step's byte, or byte `k - 1` of the call after the first step. */
  lemma ServeOutStep(c: Cache, rs: seq<Block>, i: nat, len: nat, k: nat)
    requires c.pos < 16 && i + RefillsNeeded(c.pos, len) <= |rs| && k < len
    ensures var val := if c.pos == 0 then rs[i] else c.val;
      var i1 := if c.pos == 0 then i + 1 else i;
      i1 + RefillsNeeded(NextPos(c.pos), len - 1) <= |rs| &&
      |Serve(c, rs, i, len).out| == len &&
      |Serve(Cache(val, NextPos(c.pos)), rs, i1, len - 1).out| == len - 1 &&
      BlockAt(c, rs, i, 0) == val &&
      Serve(c, rs, i, len).out[k] ==
        if k == 0 then FifoByte(val, c.pos) else Serve(Cache(val, NextPos(c.pos)), rs, i1, len - 1).out[k - 1]
  {
    var val := if c.pos == 0 then rs[i] else c.val;
    var i1 := if c.pos == 0 then i + 1 else i;
    ServeLength(c, rs, i, len);
    ServeLength(Cache(val, NextPos(c.pos)), rs, i1, len - 1);
  }

  /** Output byte `k` of a call is the byte under the cursor at that step, of the block in the union at that step. */
  lemma {:induction false} ServeByteUnderCursor(c: Cache, rs: seq<Block>, i: nat, len: nat, k: nat)
    requires c.pos < 16 && i + RefillsNeeded(c.pos, len) <= |rs| && k < len
    ensures i + RefillsNeeded(c.pos, k + 1) <= |rs|
    ensures |Serve(c, rs, i, len).out| == len
    ensures Serve(c, rs, i, len).out[k] == FifoByte(BlockAt(c, rs, i, k), PosAfter(c.pos, k))
    decreases k
  {
    RefillsMonotone(c.pos, k + 1, len);
    ServeOutStep(c, rs, i, len, k);
    if k > 0 {
      var val := if c.pos == 0 then rs[i] else c.val;
      var i1 := if c.pos == 0 then i + 1 else i;
      ServeByteUnderCursor(Cache(val, NextPos(c.pos)), rs, i1, len - 1, k - 1);
      BlockAtStep(c, rs, i, k);
    }
  }

  /** Output byte `k` of a call from cursor `p` is byte `(p + k) % 16` of the block in the union at that step. */
  lemma ServeByteAt(c: Cache, rs: seq<Block>, i: nat, len: nat, k: nat)
    requires c.pos < 16 && i + RefillsNeeded(c.pos, len) <= |rs| && k < len
    ensures i + RefillsNeeded(c.pos, k + 1) <= |rs|
    ensures |Serve(c, rs, i, len).out| == len
    ensures Serve(c, rs, i, len).out[k] == FifoByte(BlockAt(c, rs, i, k), (c.pos + k) % 16)
  {
    ServeByteUnderCursor(c, rs, i, len, k);
    PosAfterIsMod16(c.pos, k);
  }

  /** Two adjacent pieces of a sequence make up its longer prefix. */
  lemma AdjacentPieces(p: seq<Byte>, q: seq<Byte>, o1: seq<Byte>, o2: seq<Byte>, len1: nat, len2: nat)
    requires len1 <= |p| && o1 == p[..len1] && q == p[len1..]
    requires len2 <= |q| && o2 == q[..len2]
    ensures len1 + len2 <= |p| && o1 + o2 == p[..len1 + len2]
  {
    assert |o1 + o2| == len1 + len2;
    forall k | 0 <= k < len1 + len2
      ensures (o1 + o2)[k] == p[k]
    {
      if k >= len1 {
        assert o2[k - len1] == q[k - len1];
      }
    }
  }

  /**
   * Two calls in a row hand out consecutive pieces of one stream: the second
   * call starts where the first stopped, with no byte skipped or repeated.
   */
  lemma ConsecutiveCalls(c: Cache, rs: seq<Block>, i: nat, len1: nat, len2: nat)
    requires c.pos < 16 && i + RefillsNeeded(c.pos, len1) <= |rs|
    requires var s := Serve(c, rs, i, len1); i + s.refills + RefillsNeeded(s.cache.pos, len2) <= |rs|
    ensures var s1 := Serve(c, rs, i, len1);
      len1 + len2 <= |Pending(c, rs, i)| &&
      s1.out + Serve(s1.cache, rs, i + s1.refills, len2).out == Pending(c, rs, i)[..len1 + len2]
  {
    var s1 := Serve(c, rs, i, len1);
    var s2 := Serve(s1.cache, rs, i + s1.refills, len2);
    var p := Pending(c, rs, i);
    var q := Pending(s1.cache, rs, i + s1.refills);
    ServeDeliversPending(c, rs, i, len1);
    assert len1 <= |p| && s1.out == p[..len1] && q == p[len1..];
    ServeDeliversPending(s1.cache, rs, i + s1.refills, len2);
    assert len2 <= |q| && s2.out == q[..len2];
    AdjacentPieces(p, q, s1.out, s2.out, len1, len2);
  }

  // ---------------------------------------------------------------------
  // The device side of a call: successive 128-bit reads
  // ---------------------------------------------------------------------

  /**
   * The result trace is consistent (no more results released than the
   * engine produced) and the engine can serve `n` successive 128-bit reads.
   */
  predicate CanRead(h: Hw, n: nat)
    decreases n
  {
    h.taken <= |h.results| && (n == 0 || (Read128Ok(h) && CanRead(Read128Result(h).0, n - 1)))
  }

  /** The device state after `n` successive calls of `eip76d_rng_read128`. */
  function ReadsN(h: Hw, n: nat): (r: Hw)
    requires CanRead(h, n)
    decreases n
  {
    if n == 0 then h else ReadsN(Read128Result(h).0, n - 1)
  }

  /** `n` successive reads release exactly the next `n` results. */
  lemma {:induction false} ReadsNReleases(h: Hw, n: nat)
    requires CanRead(h, n)
    ensures ReadsN(h, n).taken == h.taken + n
    ensures ReadsN(h, n).results == h.results
    decreases n
  {
    if n > 0 {
      Read128Advances(h);
      ReadsNReleases(Read128Result(h).0, n - 1);
    }
  }

  /** `n` successive reads need `n` results the engine has not yet released. */
  lemma {:induction false} CanReadNeedsResults(h: Hw, n: nat)
    requires CanRead(h, n)
    ensures h.taken + n <= |h.results|
    decreases n
  {
    if n > 0 {
      Read128Advances(h);
      CanReadNeedsResults(Read128Result(h).0, n - 1);
    }
  }

  /**
   * The byte side of a call of `hw_get_random_bytes` with `n` bytes still to
   * go: cache `c`, next unread result `i`, bytes `done` written so far.
   * Finishing the call from here ends with the cache and the bytes of `goal`.
   */
  ghost predicate ServeOnTrack(c: Cache, rs: seq<Block>, i: nat, n: nat, done: seq<Byte>, goal: Served) {
    c.pos < 16 && i + RefillsNeeded(c.pos, n) <= |rs| &&
    Serve(c, rs, i, n).cache == goal.cache &&
    done + Serve(c, rs, i, n).out == goal.out
  }

  /**
   * One iteration keeps the byte side on track: refill from the next result
   * when the cursor is 0, write the byte under the cursor, advance the cursor.
   */
  lemma ServeOnTrackStep(c: Cache, rs: seq<Block>, i: nat, n: nat, done: seq<Byte>, goal: Served)
    requires ServeOnTrack(c, rs, i, n, done, goal) && n > 0
    ensures c.pos == 0 ==> i < |rs|
    ensures var v := if c.pos == 0 then rs[i] else c.val;
      ServeOnTrack(Cache(v, NextPos(c.pos)), rs, if c.pos == 0 then i + 1 else i, n - 1,
                   done + [FifoByte(v, c.pos)], goal)
  {
    var v := if c.pos == 0 then rs[i] else c.val;
    var rest := Serve(Cache(v, NextPos(c.pos)), rs, if c.pos == 0 then i + 1 else i, n - 1);
    assert Serve(c, rs, i, n).out == [FifoByte(v, c.pos)] + rest.out;
    assert done + ([FifoByte(v, c.pos)] + rest.out) == (done + [FifoByte(v, c.pos)]) + rest.out;
  }

  /**
   * The device side of a call with `m` refills still to come: the engine can
   * serve them, and they end in the device state `goalHw`.
   */
  ghost predicate DeviceOnTrack(h: Hw, rs: seq<Block>, m: nat, goalHw: Hw) {
    h.results == rs && CanRead(h, m) && h.taken + m <= |rs| && ReadsN(h, m) == goalHw
  }

  /**
   * One iteration keeps the device side on track: with the cursor at 0 it
   * makes one 128-bit read, which returns the next result; otherwise it
   * leaves the device alone.
   */
  lemma DeviceOnTrackStep(h: Hw, rs: seq<Block>, pos: nat, n: nat, goalHw: Hw)
    requires pos < 16 && n > 0 && DeviceOnTrack(h, rs, RefillsNeeded(pos, n), goalHw)
    ensures pos == 0 ==> Read128Ok(h) && Read128Result(h).1 == rs[h.taken] && Read128Result(h).0.taken == h.taken + 1
    ensures DeviceOnTrack(if pos == 0 then Read128Result(h).0 else h, rs, RefillsNeeded(NextPos(pos), n - 1), goalHw)
  {
    if pos == 0 {
      Read128Returns(h);
      Read128Advances(h);
    }
  }

  /**
   * Where a call of `hw_get_random_bytes` stands: the cache, the device,
   * the next result the device presents, the bytes still to go and the
   * bytes written so far.
   */
  datatype Progress = Progress(c: Cache, h: Hw, i: nat, n: nat, done: seq<Byte>)

  /** Both sides of a call are on track. */
  ghost predicate OnTrack(p: Progress, rs: seq<Block>, goal: Served, goalHw: Hw) {
    p.c.pos < 16 && p.h.taken == p.i &&
    DeviceOnTrack(p.h, rs, RefillsNeeded(p.c.pos, p.n), goalHw) && ServeOnTrack(p.c, rs, p.i, p.n, p.done, goal)
  }

  /** One iteration of the loop, on the ghost view of the call. */
  ghost function Advance(p: Progress, rs: seq<Block>): (q: Progress)
    requires p.c.pos < 16 && p.n > 0 && (p.c.pos == 0 ==> Read128Ok(p.h) && p.i < |rs|)
  {
    var v := if p.c.pos == 0 then rs[p.i] else p.c.val;
    Progress(Cache(v, NextPos(p.c.pos)), if p.c.pos == 0 then Read128Result(p.h).0 else p.h,
             if p.c.pos == 0 then p.i + 1 else p.i, p.n - 1, p.done + [FifoByte(v, p.c.pos)])
  }

  /** One iteration keeps the call on track; with the cursor at 0 the read returns result `i`. */
  lemma OnTrackStep(p: Progress, rs: seq<Block>, goal: Served, goalHw: Hw)
    requires OnTrack(p, rs, goal, goalHw) && p.n > 0
    ensures p.c.pos == 0 ==> Read128Ok(p.h) && p.i < |rs| && Read128Result(p.h).1 == rs[p.i]
    ensures OnTrack(Advance(p, rs), rs, goal, goalHw)
  {
    ServeOnTrackStep(p.c, rs, p.i, p.n, p.done, goal);
    DeviceOnTrackStep(p.h, rs, p.c.pos, p.n, goalHw);
  }

  /** The call is on track at its start. */
  lemma OnTrackStart(c: Cache, h: Hw, len: nat)
    requires c.pos < 16 && CanRead(h, RefillsNeeded(c.pos, len))
    ensures h.taken + RefillsNeeded(c.pos, len) <= |h.results|
    ensures OnTrack(Progress(c, h, h.taken, len, []), h.results, Serve(c, h.results, h.taken, len),
                    ReadsN(h, RefillsNeeded(c.pos, len)))
  {
    CanReadNeedsResults(h, RefillsNeeded(c.pos, len));
  }

  /** A call that is on track with nothing left to hand out has reached its goal. */
  lemma OnTrackFinish(p: Progress, rs: seq<Block>, goal: Served, goalHw: Hw)
    requires OnTrack(p, rs, goal, goalHw) && p.n == 0
    ensures p.c == goal.cache && p.done == goal.out && p.h == goalHw
  {
  }

  // ---------------------------------------------------------------------
  // The static FIFO and `hw_get_random_bytes`
  // ---------------------------------------------------------------------

  /** The function-static `fifo` union and `fifo_pos` of `hw_get_random_bytes`. */
  class Fifo {
    const val: array<Word>
    var pos: nat

    ghost predicate Valid()
      reads this
    {
      val.Length == 4 && pos < 16
    }

    function Contents(): (c: Cache)
      reads this, val
      requires Valid()
    {
      Cache(Block(val[0], val[1], val[2], val[3]), pos)
    }

    /** Static storage starts zeroed. */
    constructor ()
      ensures Valid() && fresh(val)
      ensures Contents() == Cache(Block(0, 0, 0, 0), 0)
    {
      val := new Word[4](_ => 0);
      pos := 0;
    }

    /** Refill the union: one 128-bit read from the engine stores its four words into `val` in order. */
    method Refill(dev: Device)
      requires Valid() && Read128Ok(dev.State())
      modifies val, dev
      ensures Valid()
      ensures dev.State() == Read128Result(old(dev.State())).0
      ensures Contents() == Cache(Read128Result(old(dev.State())).1, pos)
    {
      var w0, w1, w2, w3 := Read128(dev);
      val[0], val[1], val[2], val[3] := w0, w1, w2, w3;
    }

    /** Hand out the byte under the cursor into slot `at` and advance the cursor, wrapping from 15 to 0. */
    method TakeByte(buf: array<Byte>, at: nat)
      requires Valid() && at < buf.Length
      modifies this, buf
      ensures Valid() && Contents() == Cache(old(Contents()).val, NextPos(old(pos)))
      ensures buf[..at + 1] == old(buf[..at]) + [FifoByte(Contents().val, old(pos))]
      ensures forall k :: 0 <= k < buf.Length && k != at ==> buf[k] == old(buf[k])
    {
      buf[at] := FifoByte(Block(val[0], val[1], val[2], val[3]), pos);
      NextPosIsIncrementMod16(pos);
      pos := pos + 1;
      pos := pos % 16;
    }

    /**
     * The body of the loop in `hw_get_random_bytes`: refill the union by one
     * `eip76d_rng_read128` when the cursor is 0, then hand out the byte under
     * the cursor. Its effect on the cache, the device and the bytes written
     * so far is one `Advance` of the call's progress `p`.
     */
    method ServeOne(dev: Device, buf: array<Byte>, at: nat, ghost p: Progress, ghost rs: seq<Block>)
      requires Valid() && at < buf.Length && p.n > 0
      requires Contents() == p.c && dev.State() == p.h && buf[..at] == p.done
      requires p.c.pos == 0 ==> Read128Ok(p.h) && p.i < |rs| && Read128Result(p.h).1 == rs[p.i]
      modifies this, val, dev, buf
      ensures Valid()
      ensures Contents() == Advance(p, rs).c && dev.State() == Advance(p, rs).h && buf[..at + 1] == Advance(p, rs).done
      ensures forall k :: 0 <= k < buf.Length && k != at ==> buf[k] == old(buf[k])
    {
      if pos == 0 {
        Refill(dev);
      }
      TakeByte(buf, at);
    }

    /** `hw_get_random_bytes(buf, len)`, without the lock. */
    method GetRandomBytes(dev: Device, buf: array<Byte>, len: nat) returns (res: TeeResult)
      requires Valid() && len <= buf.Length
      requires CanRead(dev.State(), RefillsNeeded(pos, len))
      modifies this, val, dev, buf
      ensures Valid()
      ensures dev.State() == ReadsN(old(dev.State()), RefillsNeeded(old(pos), len))
      ensures old(dev.taken) + RefillsNeeded(old(pos), len) <= |dev.results|
      ensures var s := Serve(old(Contents()), dev.results, old(dev.taken), len);
        Contents() == s.cache && buf[..len] == s.out
      ensures buf[len..] == old(buf[len..])
      ensures res == TeeSuccess
    {
      ghost var rs := dev.results;
      OnTrackStart(Contents(), dev.State(), len);
      ghost var goal := Serve(Contents(), rs, dev.taken, len);
      ghost var goalHw := ReadsN(dev.State(), RefillsNeeded(pos, len));
      ghost var p := Progress(Contents(), dev.State(), dev.taken, len, []);
      var bufferPos: nat := 0;
      while bufferPos < len
        invariant Valid() && p.n == len - bufferPos
        invariant Contents() == p.c && dev.State() == p.h && buf[..bufferPos] == p.done
        invariant OnTrack(p, rs, goal, goalHw)
        invariant forall k :: len <= k < buf.Length ==> buf[k] == old(buf[k])
        decreases len - bufferPos
      {
        OnTrackStep(p, rs, goal, goalHw);
        ServeOne(dev, buf, bufferPos, p, rs);
        p := Advance(p, rs);
        bufferPos := bufferPos + 1;
      }
      OnTrackFinish(p, rs, goal, goalHw);
      res := TeeSuccess;
    }
  }
}
