/** The helpers of src/utils.c that ktail's core relies on: the multiplication-overflow test of
    `kmalloc_array`, the zeroing allocators, and `kstrtol`, a checked wrapper over base-10
    `strtol` (ISO C11 section 7.22.1.4). */
module Utils {
  import opened Types

  /** 2^(half the bits of a 64-bit `size_t`). */
  const MUL_NO_OVERFLOW: int := 0x1_0000_0000

  lemma {:induction false} MulMono(a: nat, b: nat, c: nat)
    requires a <= b
    ensures a * c <= b * c
  {
    if c > 0 {
      MulMono(a, b, c - 1);
      assert a * c == a * (c - 1) + a;
      assert b * c == b * (c - 1) + b;
    }
  }

  /** `q <= a / b` exactly when `q` copies of `b` fit in `a`. */
  lemma DivBound(a: nat, b: nat, q: nat)
    requires b > 0
    ensures a / b < q <==> b * q > a
  {
    var d, m := a / b, a % b;
    assert a == d * b + m && 0 <= m < b;
    if d < q {
      MulMono(d + 1, q, b);
      assert (d + 1) * b == d * b + b;
      assert b * q == q * b;
    } else {
      MulMono(q, d, b);
      assert b * q == q * b;
    }
  }

  /** The pre-test is sound: two factors below `MUL_NO_OVERFLOW` have a product that fits in
      `size_t`, so skipping the division for them misses no overflow. */
  lemma PreTestSound(nb: nat, size: nat)
    requires nb < MUL_NO_OVERFLOW && size < MUL_NO_OVERFLOW
    ensures nb * size <= SIZE_MAX
  {
    MulMono(nb, MUL_NO_OVERFLOW - 1, size);
    MulMono(size, MUL_NO_OVERFLOW - 1, MUL_NO_OVERFLOW - 1);
    assert (MUL_NO_OVERFLOW - 1) * size == size * (MUL_NO_OVERFLOW - 1);
  }

  /** The overflow test of `kmalloc_array` on two `size_t` operands: it fires exactly when
      the true product does not fit in `size_t`. */
  function MulOverflows(nb: nat, size: nat): (r: bool)
    requires nb <= SIZE_MAX && size <= SIZE_MAX
    ensures r <==> nb * size > SIZE_MAX
  {
    if (nb >= MUL_NO_OVERFLOW || size >= MUL_NO_OVERFLOW) && nb > 0 then
      DivBound(SIZE_MAX, nb, size);
      SIZE_MAX / nb < size
    else
      if nb < MUL_NO_OVERFLOW && size < MUL_NO_OVERFLOW then PreTestSound(nb, size); false
      else false
  }

  /** `kmalloc`: fresh memory of `size` bytes whose contents are whatever the allocator left
      there, here the byte `junk`. Allocation failure is not modelled. */
  method Kmalloc(size: nat, junk: byte) returns (mem: array<byte>)
    ensures fresh(mem) && mem.Length == size
    ensures forall i :: 0 <= i < size ==> mem[i] == junk
  {
    mem := new byte[size](_ => junk);
  }

  /** `kmalloc_array`: `None` is the overflow path, where `err` ends the process before
      `malloc` is reached. */
  method KmallocArray(nb: nat, size: nat, junk: byte) returns (mem: Option<array<byte>>)
    requires nb <= SIZE_MAX && size <= SIZE_MAX
    ensures mem.None? <==> nb * size > SIZE_MAX
    ensures mem.Some? ==> fresh(mem.value) && mem.value.Length == nb * size
  {
    if MulOverflows(nb, size) {
      return None;
    }
    var m := Kmalloc(nb * size, junk);
    mem := Some(m);
  }

  /** `memset(mem, '\0', size)` over the whole buffer. */
  method Zero(mem: array<byte>)
    modifies mem
    ensures forall i :: 0 <= i < mem.Length ==> mem[i] == NUL
  {
    var i := 0;
    while i < mem.Length
      invariant 0 <= i <= mem.Length
      invariant forall k :: 0 <= k < i ==> mem[k] == NUL
    {
      mem[i] := NUL;
      i := i + 1;
    }
  }

  /** `kzmalloc`: every byte of the fresh memory is 0, whatever the allocator left there. */
  method Kzmalloc(size: nat, junk: byte) returns (mem: array<byte>)
    ensures fresh(mem) && mem.Length == size
    ensures forall i :: 0 <= i < size ==> mem[i] == NUL
  {
    mem := Kmalloc(size, junk);
    Zero(mem);
  }

  /** `kzmalloc_array`: the overflow path of `kmalloc_array`, or `nb * size` zero bytes. */
  method KzmallocArray(nb: nat, size: nat, junk: byte) returns (mem: Option<array<byte>>)
    requires nb <= SIZE_MAX && size <= SIZE_MAX
    ensures mem.None? <==> nb * size > SIZE_MAX
    ensures mem.Some? ==> fresh(mem.value) && mem.value.Length == nb * size
    ensures mem.Some? ==> forall i :: 0 <= i < nb * size ==> mem.value[i] == NUL
  {
    mem := KmallocArray(nb, size, junk);
    if mem.Some? {
      Zero(mem.value);
    }
  }

  // ---------------------------------------------------------------------------------------
  // strtol(str, &end, 10)

  /** `isspace` in the C locale: space, \t, \n, \v, \f, \r. */
  predicate IsSpace(c: char) {
    c == ' ' || c == '\t' || c == '\n' || c == '\U{0B}' || c == '\U{0C}' || c == '\r'
  }

  predicate IsDigit(c: char) {
    '0' <= c <= '9'
  }

  /** Index of the first non-space character at or after `i`. */
  function SkipSpace(s: string, i: nat): (r: nat)
    decreases |s| - i
    ensures i <= r || i > |s|
    ensures r <= |s| || i > |s|
  {
    if i < |s| && IsSpace(s[i]) then SkipSpace(s, i + 1) else i
  }

  /** End of the run of decimal digits starting at `i`. */
  function DigitRun(s: string, i: nat): (r: nat)
    requires i <= |s|
    decreases |s| - i
    ensures i <= r <= |s|
    ensures forall k :: i <= k < r ==> IsDigit(s[k])
    ensures r < |s| ==> !IsDigit(s[r])
  {
    if i < |s| && IsDigit(s[i]) then DigitRun(s, i + 1) else i
  }

  /** The value of a string of decimal digits. */
  function DigitsValue(ds: string): nat
    requires forall k :: 0 <= k < |ds| ==> IsDigit(ds[k])
  {
    if ds == [] then 0
    else DigitsValue(ds[..|ds| - 1]) * 10 + DigitValue(ds[|ds| - 1])
  }

  function DigitValue(c: char): (d: nat)
    requires IsDigit(c)
    ensures d < 10
  {
    c as int - '0' as int
  }

  /** What `strtol` hands back: the (clamped) value, the offset of `end`, and whether it set
      `errno` to ERANGE. */
  datatype Strtol = Strtol(value: int, end: nat, erange: bool)

  /** Base-10 `strtol`: leading white space, an optional sign, then the longest run of digits.
      With no digits, `end` is the start of the string and the value is 0; a value outside
      `long` is clamped to LONG_MAX or LONG_MIN and ERANGE is reported. */
  function Strtol10(s: string): (r: Strtol)
    ensures r.end <= |s|
    ensures LONG_MIN <= r.value <= LONG_MAX
    ensures r.end == 0 ==> r.value == 0 && !r.erange
    ensures r.erange ==> r.value == LONG_MAX || r.value == LONG_MIN
  {
    var i := SkipSpace(s, 0);
    var j := if i < |s| && (s[i] == '-' || s[i] == '+') then i + 1 else i;
    var k := DigitRun(s, j);
    if k == j then Strtol(0, 0, false)
    else
      assert forall x :: 0 <= x < k - j ==> s[j..k][x] == s[j + x];
      var mag: int := DigitsValue(s[j..k]);
      var v := if i < |s| && s[i] == '-' then -mag else mag;
      if v > LONG_MAX then Strtol(LONG_MAX, k, true)
      else if v < LONG_MIN then Strtol(LONG_MIN, k, true)
      else Strtol(v, k, false)
  }

  /** The outcome of a `kstrtol` call: its return code and the `long` `res` points to
      (`None` when `res` is NULL). */
  datatype KstrtolCall = KstrtolCall(rc: int, res: Option<int>)

  /** `kstrtol(str, 10, res)` with `errno` holding `errno0` on entry. `None` stands for a NULL
      pointer; the C string ends at the first NUL character or at the end of `str`. */
  function Kstrtol(str: Option<string>, res: Option<int>, errno0: int): (r: KstrtolCall)
    ensures r.rc == 0 || r.rc == -EINVAL
    ensures r.res.None? <==> res.None?
    ensures r.rc != 0 ==> r.res == res
    ensures str.None? || res.None? ==> r.rc == -EINVAL
    ensures r.rc == 0 ==> str.Some? && r.res == Some(Strtol10(str.value).value)
  {
    if str.None? || res.None? then KstrtolCall(-EINVAL, res)
    else
      var s := str.value;
      var p := Strtol10(s);
      var errno := if p.erange then ERANGE else errno0;
      if p.end == 0 || (p.end < |s| && s[p.end] != '\0')
         || ((p.value == LONG_MAX || p.value == LONG_MIN) && errno == ERANGE)
      then KstrtolCall(-EINVAL, res)
      else KstrtolCall(0, Some(p.value))
  }

  // ---------------------------------------------------------------------------------------
  // decimal text, to state what kstrtol accepts

  function DigitChar(d: nat): (c: char)
    requires d < 10
    ensures IsDigit(c)
  {
    ('0' as int + d) as char
  }

  /** The shortest decimal spelling of a natural number. */
  function Digits(n: nat): (ds: string)
    ensures |ds| >= 1
    ensures forall k :: 0 <= k < |ds| ==> IsDigit(ds[k])
  {
    if n < 10 then [DigitChar(n)] else Digits(n / 10) + [DigitChar(n % 10)]
  }

  /** The decimal spelling of an integer, with a minus sign when it is negative. */
  function Decimal(v: int): string {
    if v < 0 then "-" + Digits(-v) else Digits(v)
  }

  lemma {:induction false} DigitsValueOfDigits(n: nat)
    ensures DigitsValue(Digits(n)) == n
  {
    var ds := Digits(n);
    if n >= 10 {
      DigitsValueOfDigits(n / 10);
      assert ds[..|ds| - 1] == Digits(n / 10);
    }
  }

  lemma {:induction false} DigitRunToEnd(s: string, i: nat)
    requires i <= |s| && forall k :: i <= k < |s| ==> IsDigit(s[k])
    decreases |s| - i
    ensures DigitRun(s, i) == |s|
  {
    if i < |s| {
      DigitRunToEnd(s, i + 1);
    }
  }

  /** What `strtol` makes of a decimal spelling: the whole text is consumed, and a value
      outside `long` is clamped with ERANGE. */
  lemma Strtol10OfDecimal(v: int)
    ensures var r := Strtol10(Decimal(v));
      && r.end == |Decimal(v)|
      && r.value == (if v > LONG_MAX then LONG_MAX else if v < LONG_MIN then LONG_MIN else v)
      && r.erange == (v > LONG_MAX || v < LONG_MIN)
  {
    var s := Decimal(v);
    var n := if v < 0 then -v else v;
    var j := if v < 0 then 1 else 0;
    assert s[j..] == Digits(n);
    assert SkipSpace(s, 0) == 0 by {
      assert s[0] == '-' || IsDigit(s[0]);
    }
    forall k | j <= k < |s| ensures IsDigit(s[k]) {
      assert s[k] == Digits(n)[k - j];
    }
    DigitRunToEnd(s, j);
    DigitsValueOfDigits(n);
    assert s[j..|s|] == Digits(n);
  }

  /** `kstrtol` reads back what `Decimal` writes, for every `long` value, except that
      LONG_MAX and LONG_MIN are refused while a stale ERANGE sits in `errno`; a value outside
      `long` is always refused. On refusal `*res` keeps its old value. */
  lemma KstrtolOfDecimal(v: int, old_res: int, errno0: int)
    ensures Kstrtol(Some(Decimal(v)), Some(old_res), errno0) ==
      if LONG_MIN <= v <= LONG_MAX && !((v == LONG_MAX || v == LONG_MIN) && errno0 == ERANGE)
      then KstrtolCall(0, Some(v))
      else KstrtolCall(-EINVAL, Some(old_res))
  {
    Strtol10OfDecimal(v);
  }

  /** A string without a digit is refused: `strtol` consumes nothing (`end == str`). */
  lemma KstrtolRefusesDigitFree(s: string, old_res: int, errno0: int)
    requires forall k :: 0 <= k < |s| ==> !IsDigit(s[k])
    ensures Kstrtol(Some(s), Some(old_res), errno0) == KstrtolCall(-EINVAL, Some(old_res))
  {
    var i := SkipSpace(s, 0);
    var j := if i < |s| && (s[i] == '-' || s[i] == '+') then i + 1 else i;
    assert DigitRun(s, j) == j;
  }

  /** The shape `strtol` parses: white space `ws`, a sign `sg` ("", "+" or "-"), the digits
      `ds`, and then `tail`, which does not go on with a digit. When there is no sign, the text
      after `ws` starts with neither white space nor a sign, so `ws` is all of the leading
      white space. */
  ghost predicate Spelled(ws: string, sg: string, ds: string, tail: string) {
    && (forall k :: 0 <= k < |ws| ==> IsSpace(ws[k]))
    && (sg == "" || sg == "+" || sg == "-")
    && (forall k :: 0 <= k < |ds| ==> IsDigit(ds[k]))
    && (tail == [] || !IsDigit(tail[0]))
    && (sg == "" && ds + tail != [] ==> var c := (ds + tail)[0]; !IsSpace(c) && c != '+' && c != '-')
  }

  /** The value `strtol` computes from a sign and the digits after it. */
  function Signed(sg: string, ds: string): int
    requires forall k :: 0 <= k < |ds| ==> IsDigit(ds[k])
  {
    var mag: int := DigitsValue(ds);
    if sg == "-" then -mag else mag
  }

  lemma {:induction false} SkipSpaceRun(s: string, i: nat, e: nat)
    requires i <= e <= |s| && forall k :: i <= k < e ==> IsSpace(s[k])
    requires e == |s| || !IsSpace(s[e])
    decreases e - i
    ensures SkipSpace(s, i) == e
  {
    if i < e {
      SkipSpaceRun(s, i + 1, e);
    }
  }

  /** Where `strtol`'s three scans stop on a text of the shape `Spelled`: the white space ends
      at `|ws|`, the sign is the one `sg` spells, and the digit run after it is `ds`. */
  lemma SpelledScans(ws: string, sg: string, ds: string, tail: string)
    requires Spelled(ws, sg, ds, tail)
    ensures var s, i, j, k := ws + sg + ds + tail, |ws|, |ws| + |sg|, |ws| + |sg| + |ds|;
      && SkipSpace(s, 0) == i
      && j == (if i < |s| && (s[i] == '-' || s[i] == '+') then i + 1 else i)
      && (i < |s| && s[i] == '-') == (sg == "-")
      && DigitRun(s, j) == k && s[j..k] == ds
  {
    var s := ws + sg + ds + tail;
    var i, j, k := |ws|, |ws| + |sg|, |ws| + |sg| + |ds|;
    assert s[..i] == ws && s[i..j] == sg && s[j..k] == ds && s[k..] == tail;
    assert i < |s| ==> s[i] == if sg != "" then sg[0] else (ds + tail)[0];
    forall x | 0 <= x < i ensures IsSpace(s[x]) {
      assert s[x] == ws[x];
    }
    SkipSpaceRun(s, 0, i);
    forall x | j <= x < k ensures IsDigit(s[x]) {
      assert s[x] == ds[x - j];
    }
    assert k < |s| ==> s[k] == tail[0];
    DigitRunPrefix(s, j, k);
  }

  /** `strtol` on any text of the shape `Spelled`: with no digits nothing is consumed and the
      value is 0; otherwise `end` is just past the digits and the value is the signed digits,
      clamped to `long` with ERANGE. */
  lemma Strtol10Parts(ws: string, sg: string, ds: string, tail: string)
    requires Spelled(ws, sg, ds, tail)
    ensures var r := Strtol10(ws + sg + ds + tail);
      if ds == [] then r == Strtol(0, 0, false)
      else
        var v := Signed(sg, ds);
        && r.end == |ws| + |sg| + |ds|
        && r.value == (if v > LONG_MAX then LONG_MAX else if v < LONG_MIN then LONG_MIN else v)
        && r.erange == (v > LONG_MAX || v < LONG_MIN)
  {
    SpelledScans(ws, sg, ds, tail);
  }

  /** Text with no digit after the white space and the sign is refused (`end == str`), and
      `*res` keeps its old value. */
  lemma KstrtolRefusesNoDigits(ws: string, sg: string, tail: string, old_res: int, errno0: int)
    requires Spelled(ws, sg, "", tail)
    ensures Kstrtol(Some(ws + sg + tail), Some(old_res), errno0) == KstrtolCall(-EINVAL, Some(old_res))
  {
    Strtol10Parts(ws, sg, "", tail);
    assert ws + sg + "" + tail == ws + sg + tail;
  }

  /** Digits followed by anything but the end of the C string are refused (`*end != '\0'`),
      and `*res` keeps its old value. */
  lemma KstrtolRefusesTrailing(ws: string, sg: string, ds: string, tail: string, old_res: int, errno0: int)
    requires Spelled(ws, sg, ds, tail) && ds != [] && tail != [] && tail[0] != '\0'
    ensures Kstrtol(Some(ws + sg + ds + tail), Some(old_res), errno0) == KstrtolCall(-EINVAL, Some(old_res))
  {
    Strtol10Parts(ws, sg, ds, tail);
    var s := ws + sg + ds + tail;
    assert s[|ws| + |sg| + |ds|] == tail[0];
  }

  /** Digits that end the C string (at its end or at a NUL) are accepted with their signed
      value when it is a `long`, except LONG_MAX and LONG_MIN while a stale ERANGE sits in
      `errno`; a value outside `long` is refused. */
  lemma KstrtolAccepts(ws: string, sg: string, ds: string, tail: string, old_res: int, errno0: int)
    requires Spelled(ws, sg, ds, tail) && ds != [] && (tail == [] || tail[0] == '\0')
    ensures var v := Signed(sg, ds);
      Kstrtol(Some(ws + sg + ds + tail), Some(old_res), errno0) ==
        if LONG_MIN <= v <= LONG_MAX && !((v == LONG_MAX || v == LONG_MIN) && errno0 == ERANGE)
        then KstrtolCall(0, Some(v))
        else KstrtolCall(-EINVAL, Some(old_res))
  {
    Strtol10Parts(ws, sg, ds, tail);
    var s := ws + sg + ds + tail;
    if tail != [] {
      assert s[|ws| + |sg| + |ds|] == tail[0];
    }
  }

  lemma {:induction false} DigitRunPrefix(s: string, i: nat, e: nat)
    requires i <= e <= |s| && forall k :: i <= k < e ==> IsDigit(s[k])
    decreases e - i
    ensures DigitRun(s, i) == DigitRun(s, e)
  {
    if i < e {
      DigitRunPrefix(s, i + 1, e);
    }
  }
}
