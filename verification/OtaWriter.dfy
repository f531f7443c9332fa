/** The bounded text buffer of ota_logic.c (writer_t): it never passes its end and overflow is remembered. */
module OtaWriter {
  import opened JsonText

  const NUL: char := 0 as char

  class Writer {
    const buf: array<char>
    const size: nat
    var pos: nat
    var ok: bool
    ghost var text: string        // what was written, while it fits
    ghost const beyond: seq<char> // everything from the end of the buffer on, which no write may touch

    ghost predicate Valid()
      reads this, buf
    {
      && size <= buf.Length && buf[size..] == beyond
      && (ok ==> pos < size && pos == |text| && buf[..pos] == text)
    }

    /** `t` follows what was written, or it did not fit in front of the final NUL. */
    twostate predicate Appended(t: string)
      reads this, buf
    {
      && Valid()
      && ok == (old(ok) && |old(text)| + |t| < size)
      && (ok ==> text == old(text) + t)
    }

    constructor (buf: array<char>, size: nat)
      requires size <= buf.Length
      ensures Valid() && this.buf == buf && this.size == size
      ensures text == "" && ok == (size > 0) && beyond == buf[size..]
    {
      this.buf, this.size, beyond := buf, size, buf[size..];
      pos, ok, text := 0, size > 0, "";
    }

    method Char(c: char)
      requires Valid()
      modifies this, buf
      ensures Appended([c])
    {
      if !ok {
        return;
      }
      if pos + 1 >= size {
        ok := false;
        return;
      }
      buf[pos] := c;
      pos := pos + 1;
      text := text + [c];
    }

    method Raw(s: string)
      requires Valid()
      modifies this, buf
      ensures Appended(s)
    {
      var i := 0;
      assert s[..0] == "";
      while i < |s| && ok
        invariant i <= |s| && Valid()
        invariant ok ==> old(ok) && text == old(text) + s[..i]
        invariant !ok ==> !old(ok) || |old(text)| + |s| >= size
      {
        Char(s[i]);
        assert s[..i + 1] == s[..i] + [s[i]];
        i := i + 1;
      }
      assert s[..|s|] == s;
    }

    /** One character of a string, escaped when it must be. */
    method Escape(c: char)
      requires Valid() && 0 < c as int < 256
      modifies this, buf
      ensures Appended(EscapedChar(c))
    {
      if c == '"' || c == '\\' {
        Char('\\');
        Char(c);
      } else if c == '\n' {
        Raw("\\n");
      } else if c == '\r' {
        Raw("\\r");
      } else if c == '\t' {
        Raw("\\t");
      } else if c < ' ' {
        Raw("\\u00");
        HexTable(c as int / 16);
        HexTable(c as int % 16);
        Char(HEX[c as int / 16]);
        Char(HEX[c as int % 16]);
      } else {
        Char(c);
      }
    }

    method Body(s: string)
      requires Valid() && IsCString(s)
      modifies this, buf
      ensures Appended(Escaped(s))
    {
      var i := 0;
      assert s[0..] == s;
      while i < |s| && ok
        invariant i <= |s| && Valid()
        invariant ok ==> old(ok) && text + Escaped(s[i..]) == old(text) + Escaped(s)
        invariant !ok ==> !old(ok) || |old(text)| + |Escaped(s)| >= size
      {
        ghost var before := text;
        ghost var one, rest := EscapedChar(s[i]), Escaped(s[i + 1..]);
        assert Escaped(s[i..]) == one + rest by {
          assert s[i..][1..] == s[i + 1..];
        }
        assert before + (one + rest) == before + one + rest;
        Escape(s[i]);
        i := i + 1;
      }
      assert ok ==> text + "" == text;
    }

    method QuotedString(s: string)
      requires Valid() && IsCString(s)
      modifies this, buf
      ensures Appended(Quoted(s))
    {
      Char('"');
      Body(s);
      Char('"');
    }

    /** The digits come from "%d". */
    method Int(v: int)
      requires Valid()
      modifies this, buf
      ensures Appended(Decimal(v))
    {
      Raw(Decimal(v));
    }

    /** Terminates the text; an overflow leaves the empty text and length 0. */
    method Finish() returns (n: nat)
      requires Valid()
      modifies buf
      ensures n == if ok then |text| else 0
      ensures ok ==> n < buf.Length && buf[..n] == text
      ensures size > 0 ==> n < size <= buf.Length && buf[n] == 0 as char
      ensures size <= buf.Length && buf[size..] == beyond
    {
      if !ok {
        if size > 0 {
          buf[0] := NUL;
        }
        return 0;
      }
      buf[pos] := NUL;
      return pos;
    }
  }
}
