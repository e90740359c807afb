/** JSON Pointer text (RFC 6901, sections 3 and 4): parsing, printing and escaping. */
module Pointers {
  import opened Outcomes
  import opened Text

  /** A parsed pointer: its unescaped reference tokens. */
  type Pointer = seq<string>

  // ----- str.replace, as far as the pointer code uses it -----------

  /** s.replace(c, sub) for a one-character pattern. */
  function ReplaceChar(s: string, c: char, sub: string): string {
    if s == [] then []
    else (if s[0] == c then sub else [s[0]]) + ReplaceChar(s[1..], c, sub)
  }

  /** s.replace("ab", sub) for a pattern of two characters, scanning from the left. */
  function ReplacePair(s: string, a: char, b: char, sub: char): string {
    if s == [] then []
    else if |s| > 1 && s[0] == a && s[1] == b then [sub] + ReplacePair(s[2..], a, b, sub)
    else [s[0]] + ReplacePair(s[1..], a, b, sub)
  }

  // ----- the pointer class ----------------------------------------------------------

  function Escape(s: string): string {
    ReplaceChar(ReplaceChar(s, '~', "~0"), '/', "~1")
  }

  function Unescape(s: string): string {
    ReplacePair(ReplacePair(s, '~', '1', '/'), '~', '0', '~')
  }

  function UnescapeAll(parts: seq<string>): (r: Pointer)
    ensures |r| == |parts|
    ensures forall i :: 0 <= i < |parts| ==> r[i] == Unescape(parts[i])
  {
    if parts == [] then [] else [Unescape(parts[0])] + UnescapeAll(parts[1..])
  }

  /** No '~' that is not followed by '0' or '1'. */
  predicate ValidEscapes(s: string) {
    forall i :: 0 <= i < |s| && s[i] == '~' ==> i + 1 < |s| && (s[i + 1] == '0' || s[i + 1] == '1')
  }

  /** The constructor: the tokens of a pointer text. */
  function Parse(text: string): Outcome<Pointer> {
    if !ValidEscapes(text) then Raised(PointerError)
    else
      var parts := Split('/', text);
      if parts[0] != "" then Raised(PointerError)
      else Ok(UnescapeAll(parts[1..]))
  }

  /** The path property. */
  function Print(p: Pointer): string {
    if p == [] then [] else "/" + Escape(p[0]) + Print(p[1..])
  }

  /** Tokens joined as they are, without escaping. */
  function PathText(p: Pointer): string {
    Join("/", p)
  }

  /** _path_join of the patch module, on texts: one more token at the end. */
  function PathJoin(path: string, key: string): string {
    path + "/" + ReplaceChar(ReplaceChar(key, '~', "~0"), '/', "~1")
  }

  // ----- one-pass decoding and encoding ----------------------------------------------

  /** RFC 6901 section 4 read from left to right, each escape once. */
  function Decode(s: string): string {
    if s == [] then []
    else if |s| > 1 && s[0] == '~' && s[1] == '0' then ['~'] + Decode(s[2..])
    else if |s| > 1 && s[0] == '~' && s[1] == '1' then ['/'] + Decode(s[2..])
    else [s[0]] + Decode(s[1..])
  }

  function EncodeChar(c: char): string {
    if c == '~' then "~0" else if c == '/' then "~1" else [c]
  }

  function Encode(s: string): (r: string)
    ensures ValidEscapes(r) && '/' !in r
  {
    if s == [] then [] else EncodeChar(s[0]) + Encode(s[1..])
  }

  lemma ValidEscapesTail(s: string, k: nat)
    requires ValidEscapes(s) && k <= |s|
    ensures ValidEscapes(s[k..])
  {
    forall i | 0 <= i < |s[k..]| && s[k..][i] == '~'
      ensures i + 1 < |s[k..]| && (s[k..][i + 1] == '0' || s[k..][i + 1] == '1')
    {
      assert s[i + k] == '~';
    }
  }

  /** The two replacing passes of unescape agree with decoding from left to right. */
  lemma {:induction false} UnescapeIsDecode(s: string)
    requires ValidEscapes(s)
    ensures Unescape(s) == Decode(s)
  {
    if s != [] {
      if s[0] == '~' {
        ValidEscapesTail(s, 2);
        UnescapeIsDecode(s[2..]);
        var rest := ReplacePair(s[2..], '~', '1', '/');
        if s[1] == '1' {
          assert ReplacePair(s, '~', '1', '/') == ['/'] + rest;
        } else {
          assert s[1..][1..] == s[2..];
          assert ReplacePair(s[1..], '~', '1', '/') == ['0'] + rest;
          assert ReplacePair(s, '~', '1', '/') == ['~'] + (['0'] + rest);
          assert (['~'] + (['0'] + rest))[2..] == rest;
        }
      } else {
        ValidEscapesTail(s, 1);
        UnescapeIsDecode(s[1..]);
      }
    }
  }

  lemma {:induction false} ReplaceCharConcat(s: string, t: string, c: char, sub: string)
    ensures ReplaceChar(s + t, c, sub) == ReplaceChar(s, c, sub) + ReplaceChar(t, c, sub)
  {
    if s == [] {
      assert s + t == t;
    } else {
      var head := if s[0] == c then sub else [s[0]];
      ReplaceCharConcat(s[1..], t, c, sub);
      assert (s + t)[0] == s[0] && (s + t)[1..] == s[1..] + t;
      assert ReplaceChar(s + t, c, sub) == head + ReplaceChar(s[1..] + t, c, sub);
    }
  }

  lemma {:induction false} EscapeIsEncode(s: string)
    ensures Escape(s) == Encode(s)
  {
    if s != [] {
      EscapeIsEncode(s[1..]);
      var head := if s[0] == '~' then "~0" else [s[0]];
      ReplaceCharConcat(head, ReplaceChar(s[1..], '~', "~0"), '/', "~1");
      assert ReplaceChar("~0", '/', "~1") == "~0" by {
        assert "~0"[1..] == "0";
        assert "0"[1..] == "";
      }
    }
  }

  lemma {:induction false} DecodeEncode(s: string)
    ensures Decode(Encode(s)) == s
  {
    if s != [] {
      DecodeEncode(s[1..]);
      var e := EncodeChar(s[0]);
      assert (e + Encode(s[1..]))[|e|..] == Encode(s[1..]);
    }
  }

  lemma {:induction false} EncodeDecode(s: string)
    requires ValidEscapes(s) && '/' !in s
    ensures Encode(Decode(s)) == s
  {
    if s != [] {
      if s[0] == '~' {
        ValidEscapesTail(s, 2);
        EncodeDecode(s[2..]);
        assert s == [s[0], s[1]] + s[2..];
      } else {
        ValidEscapesTail(s, 1);
        EncodeDecode(s[1..]);
      }
    }
  }

  /** The escape of a token is one valid token, and unescape gives the token back. */
  lemma UnescapeEscape(s: string)
    ensures '/' !in Escape(s) && ValidEscapes(Escape(s))
    ensures Unescape(Escape(s)) == s
  {
    EscapeIsEncode(s);
    UnescapeIsDecode(Escape(s));
    DecodeEncode(s);
  }

  lemma EscapeUnescape(s: string)
    requires ValidEscapes(s) && '/' !in s
    ensures Escape(Unescape(s)) == s
  {
    UnescapeIsDecode(s);
    EncodeDecode(s);
    EscapeIsEncode(Decode(s));
  }

  // ----- printing and parsing are inverse ----------------------------------------------

  function EscapeAll(p: Pointer): (r: seq<string>)
    ensures |r| == |p|
    ensures forall i :: 0 <= i < |p| ==> r[i] == Escape(p[i])
  {
    if p == [] then [] else [Escape(p[0])] + EscapeAll(p[1..])
  }

  lemma {:induction false} SplitPrint(p: Pointer)
    ensures Split('/', Print(p)) == [""] + EscapeAll(p)
  {
    if p != [] {
      SplitPrint(p[1..]);
      UnescapeEscape(p[0]);
      var tail := Escape(p[0]) + Print(p[1..]);
      assert Print(p) == "/" + tail;
      SplitBefore('/', Escape(p[0]), Print(p[1..]));
      assert Print(p)[1..] == tail;
      assert Split('/', Print(p)) == [""] + Split('/', tail);
      var rest := Split('/', Print(p[1..]));
      assert Escape(p[0]) + rest[0] == Escape(p[0]);
      assert rest[1..] == EscapeAll(p[1..]);
    }
  }

  lemma ValidEscapesConcat(s: string, t: string)
    requires ValidEscapes(s) && ValidEscapes(t)
    ensures ValidEscapes(s + t)
  {
    forall i | 0 <= i < |s + t| && (s + t)[i] == '~'
      ensures i + 1 < |s + t| && ((s + t)[i + 1] == '0' || (s + t)[i + 1] == '1')
    {
      if i < |s| {
        assert s[i] == '~';
      } else {
        assert t[i - |s|] == '~';
      }
    }
  }

  lemma {:induction false} PrintValidEscapes(p: Pointer)
    ensures ValidEscapes(Print(p))
  {
    if p != [] {
      PrintValidEscapes(p[1..]);
      UnescapeEscape(p[0]);
      ValidEscapesConcat(Escape(p[0]), Print(p[1..]));
      ValidEscapesConcat("/", Escape(p[0]) + Print(p[1..]));
      assert Print(p) == "/" + (Escape(p[0]) + Print(p[1..]));
    }
  }

  /** Printing then parsing returns the same tokens, for every list of tokens. */
  lemma ParsePrint(p: Pointer)
    ensures Parse(Print(p)) == Ok(p)
  {
    SplitPrint(p);
    PrintValidEscapes(p);
    forall i | 0 <= i < |p|
      ensures Unescape(EscapeAll(p)[i]) == p[i]
    {
      UnescapeEscape(p[i]);
    }
    assert ([""] + EscapeAll(p))[1..] == EscapeAll(p);
    assert UnescapeAll(EscapeAll(p)) == p;
  }

  lemma {:induction false} PartsOfValid(parts: seq<string>)
    requires ValidEscapes(Join("/", parts))
    requires forall i :: 0 <= i < |parts| ==> '/' !in parts[i]
    ensures forall i :: 0 <= i < |parts| ==> ValidEscapes(parts[i])
  {
    if |parts| > 1 {
      var s, t := parts[0], Join("/", parts[1..]);
      var whole := s + "/" + t;
      assert Join("/", parts) == whole;
      forall i | 0 <= i < |s| && s[i] == '~'
        ensures i + 1 < |s| && (s[i + 1] == '0' || s[i + 1] == '1')
      {
        assert whole[i] == '~' && whole[|s|] == '/';
        assert whole[i + 1] != '/';
        assert whole[i + 1] == s[i + 1];
      }
      ValidEscapesTail(whole, |s| + 1);
      assert whole[|s| + 1..] == t;
      PartsOfValid(parts[1..]);
    } else if |parts| == 1 {
      assert Join("/", parts) == parts[0];
    }
  }

  lemma {:induction false} PrintUnescaped(parts: seq<string>)
    requires forall i :: 0 <= i < |parts| ==> ValidEscapes(parts[i]) && '/' !in parts[i]
    ensures Join("/", [""] + parts) == Print(UnescapeAll(parts))
  {
    if parts != [] {
      PrintUnescaped(parts[1..]);
      EscapeUnescape(parts[0]);
      assert ([""] + parts)[1..] == parts;
      if |parts| > 1 {
        assert ([""] + parts[1..])[1..] == parts[1..];
        assert Join("/", [""] + parts[1..]) == "/" + Join("/", parts[1..]);
      }
    }
  }

  /** Parsing then printing returns the text, for every text the constructor accepts. */
  lemma PrintParse(text: string)
    requires Parse(text).Ok?
    ensures Print(Parse(text).value) == text
  {
    var parts := Split('/', text);
    JoinSplit('/', text);
    PartsOfValid(parts);
    assert parts == [""] + parts[1..];
    PrintUnescaped(parts[1..]);
  }

  /** Texts of pointers are equal exactly when the tokens are: comparing locations is comparing pointers. */
  lemma PrintInjective(p: Pointer, q: Pointer)
    ensures Print(p) == Print(q) <==> p == q
  {
    ParsePrint(p);
    ParsePrint(q);
  }

  /** Joining texts is adding a token. */
  lemma {:induction false} PathJoinPrint(p: Pointer, key: string)
    ensures PathJoin(Print(p), key) == Print(p + [key])
  {
    if p == [] {
      assert [key][1..] == [];
    } else {
      PathJoinPrint(p[1..], key);
      assert (p + [key])[1..] == p[1..] + [key];
    }
  }
}
