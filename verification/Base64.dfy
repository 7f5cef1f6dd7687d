/** The unpadded URL-safe base64 of section 5 of RFC 4648. */
module Base64 {
  import opened Base

  type byte = x: int | 0 <= x < 256

  /** The character of a 6-bit value: A-Z, a-z, 0-9, - and _. */
  function Char(v: int): char
    requires 0 <= v < 64
  {
    if v < 26 then ('A' as int + v) as char
    else if v < 52 then ('a' as int + v - 26) as char
    else if v < 62 then ('0' as int + v - 52) as char
    else if v == 62 then '-'
    else '_'
  }

  function Value(c: char): Option<int> {
    if 'A' <= c <= 'Z' then Some(c as int - 'A' as int)
    else if 'a' <= c <= 'z' then Some(c as int - 'a' as int + 26)
    else if '0' <= c <= '9' then Some(c as int - '0' as int + 52)
    else if c == '-' then Some(62)
    else if c == '_' then Some(63)
    else None
  }

  lemma ValueOfChar(v: int)
    requires 0 <= v < 64
    ensures Value(Char(v)) == Some(v)
    ensures Char(v) != '.' && Char(v) != '\n' && Char(v) != '\r'
  {
  }

  type sextet = x: int | 0 <= x < 64

  function High(a: byte): sextet {
    a / 4
  }

  function Middle(a: byte, b: byte): sextet {
    a % 4 * 16 + b / 16
  }

  function Lower(b: byte, c: byte): sextet {
    b % 16 * 4 + c / 64
  }

  function Low(c: byte): sextet {
    c % 64
  }

  /** The 6-bit groups of a byte string: four for three bytes, two or three for one or two left over. */
  function Groups(b: seq<byte>): (v: seq<int>)
    ensures forall i :: 0 <= i < |v| ==> 0 <= v[i] < 64
  {
    if b == [] then []
    else if |b| == 1 then [High(b[0]), Middle(b[0], 0)]
    else if |b| == 2 then [High(b[0]), Middle(b[0], b[1]), Lower(b[1], 0)]
    else [High(b[0]), Middle(b[0], b[1]), Lower(b[1], b[2]), Low(b[2])] + Groups(b[3..])
  }

  function Chars(v: seq<int>): string
    requires forall i :: 0 <= i < |v| ==> 0 <= v[i] < 64
  {
    seq(|v|, i requires 0 <= i < |v| => Char(v[i]))
  }

  function Encode(b: seq<byte>): string {
    Chars(Groups(b))
  }

  /** The values of the characters, if every one is in the alphabet. */
  function Values(s: string): Option<seq<int>> {
    if s == "" then Some([])
    else
      match (Value(s[0]), Values(s[1..]))
      case (Some(v), Some(vs)) => Some([v] + vs)
      case _ => None
  }

  function First(v: sextet, w: sextet): byte {
    v * 4 + w / 16
  }

  function Second(w: sextet, x: sextet): byte {
    w % 16 * 16 + x / 4
  }

  function Third(x: sextet, y: sextet): byte {
    x % 4 * 64 + y
  }

  /** Bytes from 6-bit values; excess bits in a last, partial group are ignored. */
  function Assemble(v: seq<int>): Option<seq<byte>>
    requires forall i :: 0 <= i < |v| ==> 0 <= v[i] < 64
  {
    if v == [] then Some([])
    else if |v| == 1 then None
    else if |v| == 2 then Some([First(v[0], v[1])])
    else if |v| == 3 then Some([First(v[0], v[1]), Second(v[1], v[2])])
    else
      match Assemble(v[4..])
      case None => None
      case Some(rest) => Some([First(v[0], v[1]), Second(v[1], v[2]), Third(v[2], v[3])] + rest)
  }

  lemma {:induction false} ValuesInRange(s: string)
    ensures Values(s).Some? ==> forall i :: 0 <= i < |Values(s).value| ==> 0 <= Values(s).value[i] < 64
  {
    if s != "" {
      ValuesInRange(s[1..]);
    }
  }

  /** The decoder skips line breaks. */
  function Unwrapped(s: string): string {
    if s == "" then "" else (if s[0] == '\n' || s[0] == '\r' then "" else [s[0]]) + Unwrapped(s[1..])
  }

  function Decode(s: string): Option<seq<byte>> {
    var s' := Unwrapped(s);
    ValuesInRange(s');
    match Values(s')
    case None => None
    case Some(v) => Assemble(v)
  }

  lemma Cons(c: char, s: string)
    ensures c != '\n' && c != '\r' ==> Unwrapped([c] + s) == [c] + Unwrapped(s)
    ensures Value(c).Some? && Values(s).Some? ==> Values([c] + s) == Some([Value(c).value] + Values(s).value)
  {
    assert ([c] + s)[1..] == s;
  }

  /** No character of the alphabet separates token parts or is skipped by the decoder. */
  lemma {:induction false} CharsPlain(v: seq<int>)
    requires forall i :: 0 <= i < |v| ==> 0 <= v[i] < 64
    ensures '.' !in Chars(v) && Unwrapped(Chars(v)) == Chars(v) && Values(Chars(v)) == Some(v)
  {
    if v != [] {
      ValueOfChar(v[0]);
      CharsPlain(v[1..]);
      assert Chars(v) == [Char(v[0])] + Chars(v[1..]);
      Cons(Char(v[0]), Chars(v[1..]));
      assert [v[0]] + v[1..] == v;
    }
  }

  lemma ThreeBytes(a: byte, b: byte, c: byte)
    ensures First(High(a), Middle(a, b)) == a
    ensures Second(Middle(a, b), Lower(b, c)) == b
    ensures Third(Lower(b, c), Low(c)) == c
  {
  }

  lemma AssembleFour(p: sextet, q: sextet, r: sextet, s: sextet, v: seq<int>)
    requires forall i :: 0 <= i < |v| ==> 0 <= v[i] < 64
    ensures Assemble(v).Some? ==> Assemble([p, q, r, s] + v) == Some([First(p, q), Second(q, r), Third(r, s)] + Assemble(v).value)
  {
    assert ([p, q, r, s] + v)[4..] == v;
  }

  lemma AssembleShort(a: byte, b: byte)
    ensures Assemble(Groups([a])) == Some([a]) && Assemble(Groups([a, b])) == Some([a, b])
  {
    AssembleFew(High(a), Middle(a, 0), 0);
    AssembleFew(High(a), Middle(a, b), Lower(b, 0));
    assert First(High(a), Middle(a, 0)) == a by { ThreeBytes(a, 0, 0); }
    assert First(High(a), Middle(a, b)) == a && Second(Middle(a, b), Lower(b, 0)) == b by { ThreeBytes(a, b, 0); }
  }

  lemma AssembleFew(p: sextet, q: sextet, r: sextet)
    ensures Assemble([p, q]) == Some([First(p, q)]) && Assemble([p, q, r]) == Some([First(p, q), Second(q, r)])
  {
  }

  lemma {:induction false} AssembleGroups(b: seq<byte>)
    ensures Assemble(Groups(b)) == Some(b)
  {
    if |b| == 1 {
      assert b == [b[0]];
      AssembleShort(b[0], 0);
    } else if |b| == 2 {
      assert b == [b[0], b[1]];
      AssembleShort(b[0], b[1]);
    } else if |b| >= 3 {
      assert b == [b[0], b[1], b[2]] + b[3..];
      AssembleGroups(b[3..]);
      AssembleFour(High(b[0]), Middle(b[0], b[1]), Lower(b[1], b[2]), Low(b[2]), Groups(b[3..]));
      ThreeBytes(b[0], b[1], b[2]);
    }
  }

  /** Decoding an encoding gives the bytes back, and no encoding contains the separator. */
  lemma DecodeEncode(b: seq<byte>)
    ensures Decode(Encode(b)) == Some(b)
    ensures '.' !in Encode(b)
  {
    CharsPlain(Groups(b));
    AssembleGroups(b);
  }

  // ----- All spellings -----

  /** How many values the unused bits of the last group can take. */
  function Spare(b: seq<byte>): nat {
    if |b| % 3 == 1 then 16 else if |b| % 3 == 2 then 4 else 1
  }

  /** The groups of a byte string with the unused bits of the last one set to x. */
  function Spelled(b: seq<byte>, x: nat): (v: seq<int>)
    requires x < Spare(b)
    ensures forall i :: 0 <= i < |v| ==> 0 <= v[i] < 64
  {
    if b == [] then []
    else if |b| == 1 then [High(b[0]), Middle(b[0], 0) + x]
    else if |b| == 2 then [High(b[0]), Middle(b[0], b[1]), Lower(b[1], 0) + x]
    else [High(b[0]), Middle(b[0], b[1]), Lower(b[1], b[2]), Low(b[2])] + Spelled(b[3..], x)
  }

  lemma {:induction false} SpelledZero(b: seq<byte>)
    ensures Spelled(b, 0) == Groups(b)
  {
    if |b| >= 3 {
      SpelledZero(b[3..]);
    }
  }

  lemma {:induction false} SpelledDiffer(b: seq<byte>, x: nat, y: nat)
    requires x < Spare(b) && y < Spare(b) && Spelled(b, x) == Spelled(b, y)
    ensures x == y
  {
    if |b| == 1 {
      assert Spelled(b, x)[1] == Spelled(b, y)[1];
    } else if |b| == 2 {
      assert Spelled(b, x)[2] == Spelled(b, y)[2];
    } else if |b| >= 3 {
      assert Spelled(b, x)[4..] == Spelled(b[3..], x) && Spelled(b, y)[4..] == Spelled(b[3..], y);
      SpelledDiffer(b[3..], x, y);
    }
  }

  lemma LastOfOne(p: sextet, q: sextet)
    ensures High(First(p, q)) == p && Middle(First(p, q), 0) + q % 16 == q
  {
  }

  lemma LastOfTwo(p: sextet, q: sextet, r: sextet)
    ensures High(First(p, q)) == p && Middle(First(p, q), Second(q, r)) == q && Lower(Second(q, r), 0) + r % 4 == r
  {
  }

  lemma FourGroups(p: sextet, q: sextet, r: sextet, s: sextet)
    ensures High(First(p, q)) == p && Middle(First(p, q), Second(q, r)) == q
    ensures Lower(Second(q, r), Third(r, s)) == r && Low(Third(r, s)) == s
  {
  }

  lemma {:induction false} UnwrappedConcat(s: string, t: string)
    ensures Unwrapped(s + t) == Unwrapped(s) + Unwrapped(t)
  {
    if s == "" {
      assert s + t == t;
    } else {
      assert (s + t)[1..] == s[1..] + t;
      UnwrappedConcat(s[1..], t);
    }
  }

  lemma {:induction false} UnwrappedPlain(s: string)
    requires '\n' !in s && '\r' !in s
    ensures Unwrapped(s) == s
  {
    if s != "" {
      assert s[0] in s && forall c :: c in s[1..] ==> c in s;
      UnwrappedPlain(s[1..]);
      assert [s[0]] + s[1..] == s;
    }
  }

  lemma BreakSkipped(s: string, eol: string, t: string)
    requires eol == "\n" || eol == "\r"
    ensures Unwrapped(s + eol + t) == Unwrapped(s + t)
  {
    UnwrappedConcat(s, t);
    UnwrappedConcat(s + eol, t);
    UnwrappedConcat(s, eol);
    assert eol[1..] == "" && Unwrapped(eol) == "";
  }

  /** Line breaks may stand anywhere in a text, and nothing else is skipped. */
  lemma {:induction false} LineBreaksSkipped(s: string, t: string)
    ensures Decode(s + "\n" + t) == Decode(s + t) && Decode(s + "\r" + t) == Decode(s + t)
    ensures '\n' !in s && '\r' !in s ==> Unwrapped(s) == s
  {
    BreakSkipped(s, "\n", t);
    BreakSkipped(s, "\r", t);
    if '\n' !in s && '\r' !in s {
      UnwrappedPlain(s);
    }
  }

  /** Whatever decodes to a byte string is one of its spellings. */
  lemma {:induction false} AssembledIsSpelled(v: seq<int>) returns (x: nat)
    requires (forall i :: 0 <= i < |v| ==> 0 <= v[i] < 64) && Assemble(v).Some?
    ensures x < Spare(Assemble(v).value) && v == Spelled(Assemble(v).value, x)
  {
    if v == [] {
      x := 0;
    } else if |v| == 2 {
      LastOfOne(v[0], v[1]);
      x := v[1] % 16;
    } else if |v| == 3 {
      LastOfTwo(v[0], v[1], v[2]);
      x := v[2] % 4;
    } else {
      x := AssembledIsSpelled(v[4..]);
      FourIsSpelled(v[0], v[1], v[2], v[3], Assemble(v[4..]).value, x);
      assert v == [v[0], v[1], v[2], v[3]] + v[4..];
    }
  }

  lemma FourIsSpelled(p: sextet, q: sextet, r: sextet, s: sextet, rest: seq<byte>, x: nat)
    requires x < Spare(rest)
    ensures var b := [First(p, q), Second(q, r), Third(r, s)] + rest;
            x < Spare(b) && Spelled(b, x) == [p, q, r, s] + Spelled(rest, x)
  {
    var b := [First(p, q), Second(q, r), Third(r, s)] + rest;
    assert b[3..] == rest;
    FourGroups(p, q, r, s);
  }

  lemma SpareIgnored(a: byte, b: byte, x: nat)
    ensures x < 16 ==> First(High(a), Middle(a, 0) + x) == a
    ensures x < 4 ==> First(High(a), Middle(a, b)) == a && Second(Middle(a, b), Lower(b, 0) + x) == b
  {
  }

  lemma OneAssembles(a: byte, x: nat)
    requires x < 16
    ensures Assemble(Spelled([a], x)) == Some([a])
  {
    AssembleFew(High(a), Middle(a, 0) + x, 0);
    assert First(High(a), Middle(a, 0) + x) == a by { SpareIgnored(a, 0, x); }
  }

  lemma TwoAssemble(a: byte, b: byte, x: nat)
    requires x < 4
    ensures Assemble(Spelled([a, b], x)) == Some([a, b])
  {
    AssembleFew(High(a), Middle(a, b), Lower(b, 0) + x);
    assert First(High(a), Middle(a, b)) == a && Second(Middle(a, b), Lower(b, 0) + x) == b by { SpareIgnored(a, b, x); }
  }

  lemma {:induction false} SpelledAssembles(b: seq<byte>, x: nat)
    requires x < Spare(b)
    ensures Assemble(Spelled(b, x)) == Some(b)
  {
    if |b| == 1 {
      assert b == [b[0]];
      OneAssembles(b[0], x);
    } else if |b| == 2 {
      assert b == [b[0], b[1]];
      TwoAssemble(b[0], b[1], x);
    } else if |b| >= 3 {
      assert b == [b[0], b[1], b[2]] + b[3..];
      SpelledAssembles(b[3..], x);
      AssembleFour(High(b[0]), Middle(b[0], b[1]), Lower(b[1], b[2]), Low(b[2]), Spelled(b[3..], x));
      ThreeBytes(b[0], b[1], b[2]);
    }
  }

  lemma CharOfValue(c: char)
    ensures Value(c).Some? ==> 0 <= Value(c).value < 64 && Char(Value(c).value) == c
  {
  }

  lemma {:induction false} CharsOfValues(s: string)
    requires Values(s).Some?
    ensures forall i :: 0 <= i < |Values(s).value| ==> 0 <= Values(s).value[i] < 64
    ensures s == Chars(Values(s).value)
  {
    if s != "" {
      CharOfValue(s[0]);
      CharsOfValues(s[1..]);
      assert s == [s[0]] + s[1..];
    }
  }

  /** A spelling of a byte string. */
  function Spelling(b: seq<byte>, x: nat): string
    requires x < Spare(b)
  {
    Chars(Spelled(b, x))
  }

  /**
   * A text decodes to a byte string exactly if, line breaks aside, it is one of its spellings: sixteen, four or one, by
   * the length of the string. The first is its encoding.
   */
  lemma DecodeIff(s: string, b: seq<byte>)
    ensures Decode(s) == Some(b) <==> exists x: nat :: x < Spare(b) && Unwrapped(s) == Spelling(b, x)
    ensures Spelling(b, 0) == Encode(b)
    ensures forall x: nat, y: nat :: x < Spare(b) && y < Spare(b) && Spelling(b, x) == Spelling(b, y) ==> x == y
  {
    SpelledZero(b);
    if Decode(s) == Some(b) {
      CharsOfValues(Unwrapped(s));
      var x := AssembledIsSpelled(Values(Unwrapped(s)).value);
      assert x < Spare(b) && Unwrapped(s) == Spelling(b, x);
    }
    forall x: nat | x < Spare(b) && Unwrapped(s) == Spelling(b, x)
      ensures Decode(s) == Some(b)
    {
      CharsPlain(Spelled(b, x));
      SpelledAssembles(b, x);
    }
    forall x: nat, y: nat | x < Spare(b) && y < Spare(b) && Spelling(b, x) == Spelling(b, y)
      ensures x == y
    {
      CharsPlain(Spelled(b, x));
      CharsPlain(Spelled(b, y));
      SpelledDiffer(b, x, y);
    }
  }

  /** Whole groups of three bytes are encoded one after the other. */
  lemma EncodeMore(three: seq<byte>, rest: seq<byte>)
    requires |three| == 3
    ensures Encode(three + rest) == Encode(three) + Encode(rest)
  {
    assert (three + rest)[3..] == rest && three[3..] == [];
    assert Groups(three + rest) == Groups(three) + Groups(rest);
  }

  /** The URL-safe alphabet of section 5 of RFC 4648: three runs of consecutive characters, a hyphen and an underscore. */
  lemma Alphabet()
    ensures Chars([0, 25, 26, 51, 52, 61, 62, 63]) == "AZaz09-_"
    ensures forall v :: 0 <= v < 61 && v != 25 && v != 51 ==> Char(v + 1) as int == Char(v) as int + 1
  {
  }

  lemma KnownGroups()
    ensures Groups([102]) == [25, 32] && Groups([102, 111]) == [25, 38, 60]
    ensures Groups([102, 111, 111]) == [25, 38, 61, 47] && Groups([98, 97, 114]) == [24, 38, 5, 50]
  {
    assert [102, 111, 111][3..] == [] && [98, 97, 114][3..] == [];
  }

  /** Test vectors of section 10 of RFC 4648, without padding: "f", "fo", "foo" and "foobar". */
  lemma KnownEncodings()
    ensures Encode([102]) == "Zg"
    ensures Encode([102, 111]) == "Zm8"
    ensures Encode([102, 111, 111]) == "Zm9v"
    ensures Encode([102, 111, 111] + [98, 97, 114]) == "Zm9vYmFy"
  {
    KnownGroups();
    EncodeMore([102, 111, 111], [98, 97, 114]);
  }
}
