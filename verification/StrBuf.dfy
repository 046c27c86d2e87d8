/**
 The growable string buffer: contents, capacity, and the cost of growing.
*/
module StrBuf {

  /** One past the largest `size_t`. */
  const WRAP: nat := 0x1_0000_0000_0000_0000
  /** The largest power of two in a `size_t`. */
  const LIMIT: nat := 0x8000_0000_0000_0000
  const FIRST: nat := 64

  function Pow2(k: nat): (p: nat)
    ensures p > k
  {
    if k == 0 then 1 else 2 * Pow2(k - 1)
  }

  /** A capacity that the buffer can have once it has one. */
  ghost predicate Capacity(c: nat) {
    exists k: nat :: c == FIRST * Pow2(k)
  }

  lemma {:induction false} DoubledCapacity(c: nat)
    requires Capacity(c)
    ensures Capacity(2 * c) && c >= FIRST
  {
    var k: nat :| c == FIRST * Pow2(k);
    assert 2 * c == FIRST * Pow2(k + 1);
  }

  // ----- The specification

  /** Doubles until there is room. */
  function Doubling(c: nat, need: nat): (r: nat)
    requires c > 0
    ensures r >= need && r >= c && (r == c || r < 2 * need)
    decreases need - c
  {
    if c >= need then c else Doubling(2 * c, need)
  }

  function Room(cap: nat, need: nat): nat {
    if need <= cap then cap else Doubling(if cap > 0 then 2 * cap else FIRST, need)
  }

  datatype Op = Append(text: string) | Clear

  /** The contents, the capacity, and the number of bytes moved by all reallocations: each moves the old block. */
  datatype State = State(text: string, cap: nat, copied: nat)

  function Step(s: State, op: Op): State {
    match op
    case Append(text) =>
      var cap := Room(s.cap, |s.text| + |text| + 1);
      State(s.text + text, cap, s.copied + if cap == s.cap then 0 else s.cap)
    case Clear => s.(text := "")
  }

  function After(ops: seq<Op>): State {
    if ops == [] then State("", 0, 0) else Step(After(ops[..|ops| - 1]), ops[|ops| - 1])
  }

  // ----- Contents

  /** The operations after the last Clear. */
  function Begin(ops: seq<Op>): (k: nat)
    ensures k <= |ops| && (k > 0 ==> ops[k - 1].Clear?)
    ensures forall i :: k <= i < |ops| ==> ops[i].Append?
  {
    if ops == [] || ops[|ops| - 1].Clear? then |ops| else Begin(ops[..|ops| - 1])
  }

  function Joined(ops: seq<Op>): string
    requires forall i :: 0 <= i < |ops| ==> ops[i].Append?
  {
    if ops == [] then "" else ops[0].text + Joined(ops[1..])
  }

  lemma {:induction false} JoinedStep(ops: seq<Op>, op: Op)
    requires op.Append? && forall i :: 0 <= i < |ops| ==> ops[i].Append?
    ensures Joined(ops + [op]) == Joined(ops) + op.text
  {
    if ops == [] {
      assert Joined([op]) == op.text + Joined([]);
      assert [] + [op] == [op];
    } else {
      assert (ops + [op])[1..] == ops[1..] + [op];
      JoinedStep(ops[1..], op);
    }
  }

  /** The contents are what was appended since the last Clear, in order. */
  lemma {:induction false} ContentsSinceClear(ops: seq<Op>)
    ensures After(ops).text == Joined(ops[Begin(ops)..])
  {
    if ops != [] && ops[|ops| - 1].Append? {
      var last := |ops| - 1;
      ContentsSinceClear(ops[..last]);
      JoinedStep(ops[..last][Begin(ops[..last])..], ops[last]);
      SuffixGrows(ops, Begin(ops[..last]));
    }
  }

  lemma {:induction false} SuffixGrows<T>(s: seq<T>, b: nat)
    requires b < |s|
    ensures s[b..] == s[..|s| - 1][b..] + [s[|s| - 1]]
  {
    var front := s[..|s| - 1];
    assert s == front + [s[|s| - 1]];
  }

  // ----- Capacity

  /** The greatest length the contents ever had. */
  function Peak(ops: seq<Op>): nat {
    var now := |After(ops).text|;
    if ops == [] then now
    else
      var before := Peak(ops[..|ops| - 1]);
      if now > before then now else before
  }

  lemma {:induction false} PeakIsMaximum(ops: seq<Op>)
    ensures forall n :: 0 <= n <= |ops| ==> |After(ops[..n]).text| <= Peak(ops)
    ensures exists n :: 0 <= n <= |ops| && |After(ops[..n]).text| == Peak(ops)
  {
    hide After;
    assert ops[..|ops|] == ops;
    if ops == [] {
      assert |After(ops[..0]).text| == Peak(ops);
    } else {
      var front := ops[..|ops| - 1];
      PeakIsMaximum(front);
      assert forall n :: 0 <= n <= |front| ==> ops[..n] == front[..n];
      var k :| 0 <= k <= |front| && |After(front[..k]).text| == Peak(front);
      assert |After(ops[..k]).text| == Peak(front);
      assert |After(ops[..|ops|]).text| == |After(ops).text|;
    }
  }

  predicate Appends(ops: seq<Op>) {
    exists i :: 0 <= i < |ops| && ops[i].Append?
  }

  lemma {:induction false} DoublingIsCapacity(c: nat, need: nat)
    requires Capacity(c)
    ensures Capacity(Doubling(c, need))
    decreases need - c
  {
    DoubledCapacity(c);
    if c < need {
      DoublingIsCapacity(2 * c, need);
    }
  }

  /** Doubling twice is doubling once. */
  lemma {:induction false} DoublingAgain(c: nat, need: nat, more: nat)
    requires c > 0 && more > Doubling(c, need)
    ensures Doubling(2 * Doubling(c, need), more) == Doubling(c, more)
    decreases need - c
  {
    if c < need {
      DoublingAgain(2 * c, need, more);
    }
  }

  lemma {:induction false} DoublingEnough(c: nat, need: nat, more: nat)
    requires 0 < c && need <= more <= Doubling(c, need)
    ensures Doubling(c, more) == Doubling(c, need)
    decreases need - c
  {
    if c < need {
      DoublingEnough(2 * c, need, more);
    }
  }

  /** The capacity depends only on the peak: it is the first of 64, 128, ... with room for it and the NUL. */
  lemma {:induction false} CapacityFromPeak(ops: seq<Op>)
    ensures After(ops).cap == if Appends(ops) then Doubling(FIRST, Peak(ops) + 1) else 0
    ensures !Appends(ops) ==> Peak(ops) == 0
  {
    if ops != [] {
      var front, op := ops[..|ops| - 1], ops[|ops| - 1];
      hide Doubling, Room;
      CapacityFromPeak(front);
      assert forall i :: 0 <= i < |front| ==> ops[i] == front[i];
      assert Appends(ops) <==> Appends(front) || op.Append?;
      if op.Append? {
        RoomForPeak(Appends(front), Peak(front), |After(ops).text|);
      }
    }
  }

  lemma {:induction false} RoomForPeak(some: bool, peak: nat, length: nat)
    requires !some ==> peak == 0
    ensures Room(if some then Doubling(FIRST, peak + 1) else 0, length + 1)
            == Doubling(FIRST, (if length > peak then length else peak) + 1)
  {
    if some && length + 1 > Doubling(FIRST, peak + 1) {
      DoublingAgain(FIRST, peak + 1, length + 1);
    } else if some && length > peak {
      DoublingEnough(FIRST, peak + 1, length + 1);
    }
  }

  lemma {:induction false} SmallestCapacity(c: nat, need: nat, k: nat)
    requires c > 0 && c * Pow2(k) >= need
    ensures Doubling(c, need) <= c * Pow2(k)
    decreases k
  {
    if c < need && k > 0 {
      assert c * Pow2(k) == 2 * c * Pow2(k - 1);
      SmallestCapacity(2 * c, need, k - 1);
    }
  }

  /** After any run: the capacity is 64 times a power of two, with room for the longest contents and no more
      than about twice that, and all reallocations together moved fewer bytes than the capacity. */
  lemma {:induction false} GrowthIsAmortised(ops: seq<Op>)
    requires Appends(ops)
    ensures var s := After(ops);
            && Capacity(s.cap) && Peak(ops) < s.cap
            && (s.cap < 65 || s.cap < 2 * (Peak(ops) + 1))
            && (forall k: nat :: FIRST * Pow2(k) > Peak(ops) ==> s.cap <= FIRST * Pow2(k))
            && s.copied < s.cap
  {
    CapacityFromPeak(ops);
    assert FIRST == FIRST * Pow2(0);
    DoublingIsCapacity(FIRST, Peak(ops) + 1);
    forall k: nat | FIRST * Pow2(k) > Peak(ops) ensures After(ops).cap <= FIRST * Pow2(k) {
      SmallestCapacity(FIRST, Peak(ops) + 1, k);
    }
    CopiedBelow(ops);
  }

  lemma {:induction false} CopiedBelow(ops: seq<Op>)
    ensures var s := After(ops); if s.cap == 0 then s.copied == 0 else s.copied + FIRST <= s.cap
  {
    if ops != [] {
      CopiedBelow(ops[..|ops| - 1]);
    }
  }

  // ----- Machine arithmetic

  function Twice(c: nat): nat {
    (2 * c) % WRAP
  }

  function TwiceTimes(c: nat, n: nat): nat {
    if n == 0 then c else Twice(TwiceTimes(c, n - 1))
  }

  /** The first capacity that `corm_strbuf_grow` tries. */
  function FirstTry(cap: nat): nat {
    if cap > 0 then Twice(cap) else FIRST
  }

  lemma {:induction false} TwiceZero(n: nat)
    ensures TwiceTimes(0, n) == 0
  {
    if n > 0 {
      TwiceZero(n - 1);
    }
  }

  lemma {:induction false} TwiceFrom(c: nat, n: nat)
    ensures TwiceTimes(c, n + 1) == TwiceTimes(Twice(c), n)
  {
    if n > 0 {
      TwiceFrom(c, n - 1);
    }
  }

  /** A power of two never passes LIMIT: doubling LIMIT gives 0. */
  lemma {:induction false} NeverPasses(j: nat, n: nat)
    requires j <= 63
    ensures TwiceTimes(Pow2(j), n) <= LIMIT
    decreases n
  {
    PowersFit(j);
    if n > 0 {
      TwiceFrom(Pow2(j), n - 1);
      if j < 63 {
        assert Twice(Pow2(j)) == Pow2(j + 1) by { PowersFit(j + 1); }
        NeverPasses(j + 1, n - 1);
      } else {
        TwiceZero(n - 1);
      }
    }
  }

  lemma {:induction false} PowersFit(j: nat)
    requires j <= 63
    ensures Pow2(j) <= LIMIT && (j == 63 ==> Pow2(j) == LIMIT)
  {
    PowerBetween(j, 63 - j);
    Power63();
  }

  lemma {:induction false} PowerBetween(j: nat, d: nat)
    ensures Pow2(j) <= Pow2(j + d)
  {
    if d > 0 {
      PowerBetween(j, d - 1);
    }
  }

  lemma {:induction false} Power63()
    ensures Pow2(63) == LIMIT
  {
    assert Pow2(10) == 0x400;
    assert Pow2(20) == 0x10_0000;
    assert Pow2(30) == 0x4000_0000;
    assert Pow2(40) == 0x100_0000_0000;
    assert Pow2(50) == 0x4_0000_0000_0000;
    assert Pow2(60) == 0x1000_0000_0000_0000;
  }

  /** Up to LIMIT there is always a doubling that is enough. */
  lemma {:induction false} Reaches(j: nat, need: nat)
    requires j <= 63 && need <= LIMIT
    ensures exists n: nat :: TwiceTimes(Pow2(j), n) >= need
    decreases 63 - j
  {
    PowersFit(j);
    if j == 63 {
      assert TwiceTimes(Pow2(63), 0) >= need;
    } else {
      PowersFit(j + 1);
      Reaches(j + 1, need);
      assert Pow2(j + 1) == Twice(Pow2(j));
      TwiceOnce(Pow2(j), need);
    }
  }

  lemma {:induction false} TwiceOnce(c: nat, need: nat)
    requires exists n: nat :: TwiceTimes(Twice(c), n) >= need
    ensures exists n: nat :: TwiceTimes(c, n) >= need
  {
    hide Twice, TwiceTimes;
    var n: nat :| TwiceTimes(Twice(c), n) >= need;
    TwiceFrom(c, n);
    assert TwiceTimes(c, n + 1) >= need;
  }

  lemma {:induction false} SixtyFour(k: nat)
    ensures FIRST * Pow2(k) == Pow2(k + 6)
  {
    if k == 0 {
      assert Pow2(6) == FIRST;
    } else {
      SixtyFour(k - 1);
    }
  }

  lemma {:induction false} CapacityIsPower(c: nat) returns (j: nat)
    requires Capacity(c) && c <= LIMIT
    ensures j <= 63 && c == Pow2(j)
  {
    var k: nat :| c == FIRST * Pow2(k);
    SixtyFour(k);
    j := k + 6;
    if j > 63 {
      PowerBetween(64, j - 64);
      Power63();
    }
  }

  /** In 64-bit arithmetic the doubling loop ends exactly when no more than 2^63 bytes are needed; beyond that
      the capacity wraps to 0 and stays there. */
  lemma {:induction false} DoublingEndsExactly(cap: nat, need: nat)
    requires cap == 0 || (Capacity(cap) && cap <= LIMIT)
    requires cap < need < WRAP
    ensures (exists n: nat :: TwiceTimes(FirstTry(cap), n) >= need) <==> need <= LIMIT
  {
    var j := 6;
    if cap > 0 {
      j := CapacityIsPower(cap);
      PowersFit(j);
      j := j + 1;
    } else {
      assert Pow2(6) == FIRST;
    }
    if j <= 63 {
      PowersFit(j);
      assert FirstTry(cap) == Pow2(j);
      forall n: nat ensures TwiceTimes(FirstTry(cap), n) <= LIMIT { NeverPasses(j, n); }
      if need <= LIMIT {
        Reaches(j, need);
      }
    } else {
      assert cap == LIMIT && FirstTry(cap) == 0;
      forall n: nat ensures TwiceTimes(FirstTry(cap), n) == 0 { TwiceZero(n); }
    }
  }

  // ----- The buffer

  /** A C string ends at its first NUL. */
  function Cut(bytes: string): (s: string)
    ensures s <= bytes && '\0' !in s && (|s| < |bytes| ==> bytes[|s|] == '\0')
  {
    if bytes == "" || bytes[0] == '\0' then "" else [bytes[0]] + Cut(bytes[1..])
  }

  lemma {:induction false} CutAtEnd(text: string, rest: string)
    requires rest != "" && rest[0] == '\0'
    ensures Cut(text + rest) == Cut(text)
  {
    if text != "" && text[0] != '\0' {
      assert (text + rest)[1..] == text[1..] + rest;
      CutAtEnd(text[1..], rest);
    } else if text == "" {
      assert text + rest == rest;
    }
  }

  class Buffer {
    var buf: array?<char>
    var len: nat
    var cap: nat
    ghost var copied: nat

    ghost predicate Valid()
      reads this, buf
    {
      if buf == null then len == cap == copied == 0
      else buf.Length == cap && len < cap <= LIMIT && Capacity(cap) && buf[len] == '\0'
    }

    ghost function Now(): State
      reads this, buf
      requires Valid()
    {
      State(if buf == null then "" else buf[..len], cap, copied)
    }

    constructor ()
      ensures Valid() && Now() == After([])
    {
      buf, len, cap, copied := null, 0, 0, 0;
    }

    /** Makes room for `extra` more characters and the NUL. */
    method Grow(extra: nat)
      requires Valid() && len + extra + 1 <= LIMIT
      modifies this`buf, this`cap, this`copied
      ensures buf != null && buf.Length == cap && Capacity(cap) && cap <= LIMIT
      ensures cap == Room(old(cap), len + extra + 1)
      ensures copied == old(copied) + if cap == old(cap) then 0 else old(cap)
      ensures buf == old(buf) || fresh(buf)
      ensures buf[..len] == if old(buf) == null then "" else old(buf[..len])
    {
      var need := (len + extra + 1) % WRAP;
      if need <= cap {
        return;
      }
      var newCap := FirstTry(cap);
      FirstCapacity(cap);
      ghost var result := Room(cap, need);
      while newCap < need
        invariant 0 < newCap && Capacity(newCap) && Doubling(newCap, need) == result
        decreases need - newCap
        modifies {}
      {
        StepCapacity(newCap, need);
        newCap := Twice(newCap);
      }
      AtMostLimit(newCap, need, cap);
      Replace(newCap);
    }

    /** `realloc`. */
    method Replace(newCap: nat)
      requires Valid() && newCap > cap
      modifies this`buf, this`cap, this`copied
      ensures buf != null && fresh(buf) && buf.Length == cap == newCap
      ensures copied == old(copied) + old(cap)
      ensures buf[..len] == if old(buf) == null then "" else old(buf[..len])
    {
      var tmp := new char[newCap];
      if buf != null {
        var block: array<char> := buf;
        for i := 0 to block.Length
          invariant forall k :: 0 <= k < i ==> tmp[k] == block[k]
          modifies tmp
        {
          tmp[i] := block[i];
        }
      }
      copied := copied + cap;
      buf, cap := tmp, newCap;
    }

    method Put(s: string)
      requires Valid() && len + |s| + 1 <= LIMIT
      modifies this, buf
      ensures Valid() && (buf == old(buf) || fresh(buf))
      ensures Now() == Step(old(Now()), Append(s))
    {
      Grow(|s|);
      Copy(buf, len, s);
      len := len + |s|;
      buf[len] := '\0';
    }

    /** `memcpy`. */
    static method Copy(block: array<char>, at: nat, s: string)
      requires at + |s| <= block.Length
      modifies block
      ensures block[..at + |s|] == old(block[..at]) + s
    {
      forall i | 0 <= i < |s| {
        block[at + i] := s[i];
      }
    }

    /** `corm_strbuf_append`, of a string up to its NUL. */
    method AppendString(bytes: string)
      requires Valid() && len + |Cut(bytes)| + 1 <= LIMIT
      modifies this, buf
      ensures Valid() && (buf == old(buf) || fresh(buf))
      ensures Now() == Step(old(Now()), Append(Cut(bytes)))
    {
      Put(Cut(bytes));
    }

    /** `corm_strbuf_appendn`, of `n` characters whatever they are. */
    method AppendN(bytes: string, n: nat)
      requires Valid() && n <= |bytes| && len + n + 1 <= LIMIT
      modifies this, buf
      ensures Valid() && (buf == old(buf) || fresh(buf))
      ensures Now() == Step(old(Now()), Append(bytes[..n]))
    {
      Put(bytes[..n]);
    }

    method Clean()
      requires Valid()
      modifies this`len, buf
      ensures Valid() && Now() == Step(old(Now()), Clear)
    {
      len := 0;
      if buf != null {
        buf[0] := '\0';
      }
    }

    /** `corm_strbuf_cstr`: what a reader of the C string gets. */
    function Cstr(): (s: string)
      requires Valid()
      reads this, buf
      ensures s == Cut(Now().text)
    {
      if buf == null then ""
      else
        assert buf[..] == buf[..len] + buf[len..];
        CutAtEnd(buf[..len], buf[len..]);
        Cut(buf[..])
    }
  }

  /** While less than 2^63 is needed nothing wraps around. */
  lemma {:induction false} StepCapacity(c: nat, need: nat)
    requires Capacity(c) && 0 < c < need <= LIMIT
    ensures c < Twice(c) && Capacity(Twice(c)) && Doubling(Twice(c), need) == Doubling(c, need)
  {
    DoubledCapacity(c);
  }

  lemma {:induction false} FirstCapacity(cap: nat)
    requires cap == 0 || (Capacity(cap) && cap < LIMIT)
    ensures cap < FirstTry(cap) && Capacity(FirstTry(cap)) && FirstTry(cap) == if cap > 0 then 2 * cap else FIRST
  {
    if cap > 0 {
      DoubledCapacity(cap);
    } else {
      assert FIRST == FIRST * Pow2(0);
    }
  }

  lemma {:induction false} AtMostLimit(c: nat, need: nat, cap: nat)
    requires Capacity(c) && need <= LIMIT && cap < need
    requires c == FIRST || c == 2 * cap || c < 2 * need
    requires cap == 0 || Capacity(cap)
    ensures c <= LIMIT
  {
    PowerAtMost(c);
  }

  lemma {:induction false} PowerAtMost(c: nat)
    requires Capacity(c) && c < 2 * LIMIT
    ensures c <= LIMIT
  {
    var k: nat :| c == FIRST * Pow2(k);
    SixtyFour(k);
    Power63();
    if k + 6 > 63 {
      PowerBetween(64, k + 6 - 64);
    } else {
      PowersFit(k + 6);
    }
  }
}
