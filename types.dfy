/** Shared vocabulary of the model: bytes, the C constants ktail relies on, and C strings. */
module Types {

  /** One byte of a file, as `fgetc` returns it when it does not return EOF. */
  newtype byte = x: int | 0 <= x < 256

  const NL: byte := 10
  const NUL: byte := 0

  // errno values (Linux numbering)
  const EINTR: int := 4
  const EIO: int := 5
  const ENOMEM: int := 12
  const EINVAL: int := 22
  const ERANGE: int := 34

  const EXIT_SUCCESS: int := 0
  const EXIT_FAILURE: int := 1

  // LP64 widths of `long` and `size_t`
  const LONG_MAX: int := 0x7FFF_FFFF_FFFF_FFFF
  const LONG_MIN: int := -0x8000_0000_0000_0000
  const SIZE_MAX: int := 0xFFFF_FFFF_FFFF_FFFF

  datatype Option<T> = None | Some(value: T)

  /** The C string held at the start of a buffer: its longest prefix without a NUL byte.
      This is what `printf("%s", buf)` emits. */
  function CStr(buf: seq<byte>): seq<byte> {
    if buf == [] || buf[0] == NUL then [] else [buf[0]] + CStr(buf[1..])
  }

  /** Terminating a text with NUL fixes the C string it holds, whatever follows. */
  lemma {:induction false} CStrTerminated(text: seq<byte>, rest: seq<byte>)
    ensures CStr(text + [NUL] + rest) == CStr(text)
  {
    if text != [] {
      assert (text + [NUL] + rest)[1..] == text[1..] + [NUL] + rest;
      CStrTerminated(text[1..], rest);
    }
  }

  /** A text without NUL bytes is its own C string. */
  lemma {:induction false} CStrOfPlainText(text: seq<byte>)
    requires NUL !in text
    ensures CStr(text) == text
  {
    if text != [] {
      assert NUL !in text[1..];
      CStrOfPlainText(text[1..]);
    }
  }

  /** Lines written out one after another, each followed by a newline. */
  function Joined(lines: seq<seq<byte>>): (s: seq<byte>)
    ensures |s| >= |lines|
  {
    if lines == [] then []
    else Joined(lines[..|lines| - 1]) + lines[|lines| - 1] + [NL]
  }

  lemma JoinedAppend(lines: seq<seq<byte>>, line: seq<byte>)
    ensures Joined(lines + [line]) == Joined(lines) + line + [NL]
  {
    assert (lines + [line])[..|lines|] == lines;
  }

  /** Every byte of a line is a byte of the joined text. */
  lemma {:induction false} JoinedHas(lines: seq<seq<byte>>, k: nat, b: byte)
    requires k < |lines| && b in lines[k]
    ensures b in Joined(lines)
  {
    var last := |lines| - 1;
    if k < last {
      assert lines[..last][k] == lines[k];
      JoinedHas(lines[..last], k, b);
    }
  }

  /** A joined text ends with the newline of its last line. */
  lemma JoinedEndsWithNewline(lines: seq<seq<byte>>)
    requires lines != []
    ensures var s := Joined(lines); |s| > 0 && s[|s| - 1] == NL
  {
  }

  /** A text splits in one way only into newline-free lines, each followed by a newline, and a
      newline-free rest. */
  lemma {:induction false} JoinedUnique(a: seq<seq<byte>>, p: seq<byte>, b: seq<seq<byte>>, q: seq<byte>)
    requires NoNewlines(a) && NoNewlines(b) && NL !in p && NL !in q
    requires Joined(a) + p == Joined(b) + q
    ensures a == b && p == q
    decreases |a|
  {
    var x, y := Joined(a), Joined(b);
    var t := x + p;
    assert forall k :: |x| <= k < |t| ==> t[k] == p[k - |x|];
    assert forall k :: |y| <= k < |t| ==> t[k] == q[k - |y|];
    if a != [] {
      JoinedEndsWithNewline(a);
      assert t[|x| - 1] == NL;
    }
    if b != [] {
      JoinedEndsWithNewline(b);
      assert t[|y| - 1] == NL;
    }
    assert |x| == |y|;
    assert x == t[..|x|] == y;
    if a != [] {
      var i, j := |a| - 1, |b| - 1;
      assert x[..|x| - 1] == Joined(a[..i]) + a[i];
      assert y[..|y| - 1] == Joined(b[..j]) + b[j];
      assert NoNewlines(a[..i]) && NoNewlines(b[..j]);
      JoinedUnique(a[..i], a[i], b[..j], b[j]);
      assert a == a[..i] + [a[i]] && b == b[..j] + [b[j]];
    }
  }

  /** Every line is short enough to leave room for its NUL in a `maxLine`-byte slot. */
  ghost predicate Fits(lines: seq<seq<byte>>, maxLine: nat) {
    forall k :: 0 <= k < |lines| ==> |lines[k]| < maxLine
  }

  ghost predicate NoNewlines(lines: seq<seq<byte>>) {
    forall k :: 0 <= k < |lines| ==> NL !in lines[k]
  }

  /** Number of newline bytes in a text. */
  function Newlines(text: seq<byte>): nat {
    if text == [] then 0
    else Newlines(text[..|text| - 1]) + (if text[|text| - 1] == NL then 1 else 0)
  }

  lemma {:induction false} NewlinesAppend(a: seq<byte>, b: seq<byte>)
    ensures Newlines(a + b) == Newlines(a) + Newlines(b)
  {
    if b == [] {
      assert a + b == a;
    } else {
      assert (a + b)[..|a + b| - 1] == a + b[..|b| - 1];
      NewlinesAppend(a, b[..|b| - 1]);
    }
  }

  lemma {:induction false} NewlinesNone(text: seq<byte>)
    requires NL !in text
    ensures Newlines(text) == 0
  {
    if text != [] {
      assert NL !in text[..|text| - 1];
      NewlinesNone(text[..|text| - 1]);
    }
  }

  /** Joining newline-free lines produces exactly one newline per line. */
  lemma {:induction false} JoinedNewlines(lines: seq<seq<byte>>, partial: seq<byte>)
    requires NoNewlines(lines) && NL !in partial
    ensures Newlines(Joined(lines) + partial) == |lines|
  {
    NewlinesAppend(Joined(lines), partial);
    NewlinesNone(partial);
    if lines != [] {
      var k := |lines| - 1;
      JoinedNewlines(lines[..k], []);
      NewlinesAppend(Joined(lines[..k]), lines[k]);
      NewlinesNone(lines[k]);
      NewlinesAppend(Joined(lines[..k]) + lines[k], [NL]);
      assert Joined(lines[..k]) + [] == Joined(lines[..k]);
      assert [NL][..0] == [];
    }
  }
}
