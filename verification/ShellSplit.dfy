/** Splitting a Windows command line the way the C runtime does, and the quoting that it undoes. */
module ShellSplit {
  import opened Outcomes

  /** buff is None while the list of pieces of the current component is empty, and else the pieces joined. */
  datatype Scan = Scan(components: seq<string>, buff: Option<string>, quoted: bool, slashes: nat)

  const START: Scan := Scan([], None, false, 0)

  predicate Blank(c: char) {
    c == ' ' || c == '\t'
  }

  function Slashes(n: nat): string {
    seq(n, _ => '\\')
  }

  function More(buff: Option<string>, piece: string): Option<string> {
    Some((if buff.Some? then buff.value else "") + piece)
  }

  /** Backslashes that do not lead up to a quote stand for themselves. */
  function Flush(s: Scan): Scan {
    if s.slashes > 0 then s.(buff := More(s.buff, Slashes(s.slashes)), slashes := 0) else s
  }

  /** The current component, if anything is in the buffer, becomes the last one of the list. */
  function Cut(s: Scan): Scan {
    if s.buff.Some? then s.(components := s.components + [s.buff.value], buff := None) else s
  }

  /** A quote after n backslashes: half of them stay, and it is literal if one is left over. */
  function Quote(s: Scan): Scan {
    var s' := if s.slashes > 0 then s.(buff := More(s.buff, Slashes(s.slashes / 2)), slashes := 0) else s;
    if s.slashes % 2 == 1 then s'.(buff := More(s'.buff, "\""))
    else s'.(quoted := !s.quoted, buff := More(s'.buff, ""))
  }

  function Next(s: Scan, c: char): Scan {
    if c == '\\' then s.(slashes := s.slashes + 1)
    else if c == '\"' then Quote(s)
    else if Blank(c) && !s.quoted then Cut(Flush(s))
    else
      var s' := Flush(s);
      s'.(buff := More(s'.buff, [c]))
  }

  function ScanFrom(s: Scan, text: string): Scan
    decreases |text|
  {
    if text == "" then s else ScanFrom(Next(s, text[0]), text[1..])
  }

  function Components(text: string): Outcome<seq<string>> {
    var s := ScanFrom(START, text);
    if s.quoted then Raised(PythonTypeError) else Ok(Cut(Flush(s)).components)
  }

  /** _windows_shell_split. */
  method Split(text: string) returns (r: Outcome<seq<string>>)
    ensures r == Components(text)
  {
    if text == "" { return Ok([]); }
    var components: seq<string> := [];
    var buff: Option<string> := None;
    var quoted, slashes := false, 0;
    for i := 0 to |text|
      invariant slashes >= 0
      invariant ScanFrom(Scan(components, buff, quoted, slashes), text[i..]) == ScanFrom(START, text)
    {
      var c := text[i];
      assert text[i..][0] == c && text[i..][1..] == text[i + 1..];
      if c == '\\' {
        slashes := slashes + 1;
      } else if c == '\"' {
        var literal := false;
        if slashes > 0 {
          buff := More(buff, Slashes(slashes / 2));
          literal := slashes % 2 == 1;
          slashes := 0;
        }
        if literal {
          buff := More(buff, "\"");
          continue;
        }
        quoted := !quoted;
        buff := More(buff, "");
      } else if Blank(c) && !quoted {
        if slashes > 0 {
          buff := More(buff, Slashes(slashes));
          slashes := 0;
        }
        if buff.Some? {
          components := components + [buff.value];
          buff := None;
        }
      } else {
        if slashes > 0 {
          buff := More(buff, Slashes(slashes));
          slashes := 0;
        }
        buff := More(buff, [c]);
      }
    }
    if quoted { return Raised(PythonTypeError); }
    if slashes > 0 {
      buff := More(buff, Slashes(slashes));
    }
    if buff.Some? {
      components := components + [buff.value];
    }
    r := Ok(components);
  }

  lemma {:induction false} ScanConcat(s: Scan, a: string, b: string)
    ensures ScanFrom(s, a + b) == ScanFrom(ScanFrom(s, a), b)
    decreases |a|
  {
    if a == "" {
      assert a + b == b;
    } else {
      assert (a + b)[1..] == a[1..] + b;
      ScanConcat(Next(s, a[0]), a[1..], b);
    }
  }

  // ----- when it fails --------------------------------------------------------------------------

  /** The number of backslashes immediately before position i. */
  function RunBefore(text: string, i: nat): nat
    requires i <= |text|
  {
    if i > 0 && text[i - 1] == '\\' then 1 + RunBefore(text, i - 1) else 0
  }

  predicate Unescaped(text: string, i: nat)
    requires i < |text|
  {
    text[i] == '\"' && RunBefore(text, i) % 2 == 0
  }

  /** The number of unescaped quotes among the first n characters. */
  function Quotes(text: string, n: nat): nat
    requires n <= |text|
  {
    if n == 0 then 0 else Quotes(text, n - 1) + (if Unescaped(text, n - 1) then 1 else 0)
  }

  lemma {:induction false} ScanCounts(text: string, n: nat)
    requires n <= |text|
    ensures ScanFrom(START, text[..n]).slashes == RunBefore(text, n)
    ensures ScanFrom(START, text[..n]).quoted <==> Quotes(text, n) % 2 == 1
  {
    if n > 0 {
      ScanCounts(text, n - 1);
      assert text[..n] == text[..n - 1] + [text[n - 1]];
      ScanConcat(START, text[..n - 1], [text[n - 1]]);
      var s := ScanFrom(START, text[..n - 1]);
      assert ScanFrom(s, [text[n - 1]]) == Next(s, text[n - 1]);
    }
  }

  /** The splitter fails exactly when the number of unescaped quotes is odd. */
  lemma FailsOnOddQuotes(text: string)
    ensures Components(text).Raised? <==> Quotes(text, |text|) % 2 == 1
  {
    ScanCounts(text, |text|);
    assert text[..|text|] == text;
  }

  // ----- what it undoes -------------------------------------------------------------------------

  /**
   An argument as it is written on a command line, behind n backslashes already read: backslashes are doubled only in
   front of a quote, quotes are escaped, and a closing quote follows if the argument is wrapped in quotes.
   */
  function Written(arg: string, n: nat, wrap: bool): string
    decreases |arg|
  {
    if arg == "" then (if wrap then Slashes(2 * n) + "\"" else Slashes(n))
    else if arg[0] == '\\' then Written(arg[1..], n + 1, wrap)
    else if arg[0] == '\"' then Slashes(2 * n + 1) + "\"" + Written(arg[1..], 0, wrap)
    else Slashes(n) + [arg[0]] + Written(arg[1..], 0, wrap)
  }

  /** A piece of an argument, in quotes or not. */
  datatype Piece = Piece(text: string, wrap: bool)

  /** An argument is written as pieces with nothing between them, and blanks behind it. */
  datatype Argument = Argument(pieces: seq<Piece>, blanks: string)

  predicate NoBlank(text: string) {
    forall i :: 0 <= i < |text| ==> !Blank(text[i])
  }

  predicate AllBlank(blanks: string) {
    forall i :: 0 <= i < |blanks| ==> Blank(blanks[i])
  }

  function TextOf(pieces: seq<Piece>): string {
    if pieces == [] then "" else pieces[0].text + TextOf(pieces[1..])
  }

  predicate SomeWrap(pieces: seq<Piece>) {
    exists i :: 0 <= i < |pieces| && pieces[i].wrap
  }

  /** A piece may go without quotes if it has no blank in it; something must be written for an empty argument. */
  predicate Sound(a: Argument) {
    && (forall i :: 0 <= i < |a.pieces| ==> a.pieces[i].wrap || NoBlank(a.pieces[i].text))
    && (SomeWrap(a.pieces) || TextOf(a.pieces) != "")
    && a.blanks != "" && AllBlank(a.blanks)
  }

  /** A piece without quotes, behind n backslashes, up to the backslashes at its end, and the number of those. */
  function Bare(text: string, n: nat): string {
    if text == "" then ""
    else if text[0] == '\\' then Bare(text[1..], n + 1)
    else WrittenChar(n, text[0]) + Bare(text[1..], 0)
  }

  function Pending(text: string, n: nat): nat {
    if text == "" then n else Pending(text[1..], if text[0] == '\\' then n + 1 else 0)
  }

  /** The pieces of an argument behind n backslashes: backslashes are doubled in front of every quote. */
  function Command(pieces: seq<Piece>, n: nat): string
    decreases |pieces|
  {
    if pieces == [] then Slashes(n)
    else if pieces[0].wrap then
      Slashes(2 * n) + "\"" + Written(pieces[0].text, 0, true) + Command(pieces[1..], 0)
    else Bare(pieces[0].text, n) + Command(pieces[1..], Pending(pieces[0].text, n))
  }

  /** A command line: the arguments, with blanks between them. */
  function Line(args: seq<Argument>): string {
    if args == [] then "" else if |args| == 1 then Command(args[0].pieces, 0)
    else Command(args[0].pieces, 0) + args[0].blanks + Line(args[1..])
  }

  function Texts(args: seq<Argument>): seq<string> {
    seq(|args|, i requires 0 <= i < |args| => TextOf(args[i].pieces))
  }

  lemma {:induction false} ScanSlashes(s: Scan, n: nat)
    ensures ScanFrom(s, Slashes(n)) == s.(slashes := s.slashes + n)
    decreases n
  {
    if n > 0 {
      assert Slashes(n)[1..] == Slashes(n - 1);
      ScanSlashes(s.(slashes := s.slashes + 1), n - 1);
    }
  }

  /** What has been read of the current component, with pending backslashes. */
  function Read(s: Scan): string {
    var f := Flush(s);
    if f.buff.Some? then f.buff.value else ""
  }

  /** One character of an argument that is not a backslash, with n backslashes before it. */
  function WrittenChar(n: nat, c: char): string {
    Slashes(if c == '\"' then 2 * n + 1 else n) + [c]
  }

  lemma ReadsChar(s: Scan, n: nat, c: char)
    requires s.slashes == 0 && c != '\\' && (s.quoted || !Blank(c))
    ensures var s' := ScanFrom(s, WrittenChar(n, c));
            s'.components == s.components && s'.quoted == s.quoted && s'.slashes == 0
            && s'.buff == Some(Read(s) + (Slashes(n) + [c]))
  {
    var k := if c == '\"' then 2 * n + 1 else n;
    ScanConcat(s, Slashes(k), [c]);
    ScanSlashes(s, k);
    var m := s.(slashes := k);
    assert ScanFrom(m, [c]) == Next(m, c);
    assert Slashes(0) == "";
    assert Read(s) + "" == Read(s);
    assert c == '\"' ==> k / 2 == n;
    assert (Read(s) + Slashes(n)) + [c] == Read(s) + (Slashes(n) + [c]);
  }

  lemma ReadsEnd(s: Scan, n: nat, wrap: bool)
    requires s.slashes == 0 && s.quoted == wrap
    ensures var s' := ScanFrom(s, Written("", n, wrap));
            && s'.components == s.components && !s'.quoted && (wrap ==> s'.slashes == 0)
            && Flush(s').buff == if s.buff.Some? || n > 0 || wrap then Some(Read(s) + Slashes(n)) else None
  {
    var k := if wrap then 2 * n else n;
    ScanSlashes(s, k);
    var m := s.(slashes := k);
    if wrap {
      ScanConcat(s, Slashes(k), "\"");
      assert ScanFrom(m, "\"") == Next(m, '\"');
    }
    assert Slashes(0) == "";
    assert Read(s) + "" == Read(s);
    assert (Read(s) + Slashes(n)) + "" == Read(s) + Slashes(n);
  }

  /** Reading a written argument adds exactly its text to the current component. */
  lemma {:induction false} ReadsWritten(s: Scan, arg: string, n: nat, wrap: bool)
    requires s.slashes == 0 && s.quoted == wrap
    requires wrap || forall i :: 0 <= i < |arg| ==> !Blank(arg[i])
    ensures var s' := ScanFrom(s, Written(arg, n, wrap));
            && s'.components == s.components && !s'.quoted && (wrap ==> s'.slashes == 0)
            && Flush(s').buff ==
               if s.buff.Some? || n > 0 || wrap || arg != "" then Some(Read(s) + (Slashes(n) + arg)) else None
    decreases |arg|
  {
    if arg == "" {
      ReadsEnd(s, n, wrap);
      assert Slashes(n) + arg == Slashes(n);
    } else if arg[0] == '\\' {
      ReadsWritten(s, arg[1..], n + 1, wrap);
      assert Slashes(n + 1) + arg[1..] == Slashes(n) + arg;
    } else {
      ReadsChar(s, n, arg[0]);
      ScanConcat(s, WrittenChar(n, arg[0]), Written(arg[1..], 0, wrap));
      assert Written(arg, n, wrap) == WrittenChar(n, arg[0]) + Written(arg[1..], 0, wrap);
      ReadsWritten(ScanFrom(s, WrittenChar(n, arg[0])), arg[1..], 0, wrap);
      assert Read(s) + (Slashes(n) + [arg[0]]) + (Slashes(0) + arg[1..]) == Read(s) + (Slashes(n) + arg);
    }
  }

  /** A quote behind 2 * n backslashes opens a piece. */
  lemma ReadsOpening(s: Scan, n: nat)
    requires s.slashes == 0 && !s.quoted
    ensures ScanFrom(s, Slashes(2 * n) + "\"") == Scan(s.components, Some(Read(s) + Slashes(n)), true, 0)
  {
    ScanSlashes(s, 2 * n);
    ScanConcat(s, Slashes(2 * n), "\"");
    var m := s.(slashes := 2 * n);
    assert ScanFrom(m, "\"") == Next(m, '\"');
    assert Slashes(0) == "";
    assert Read(s) + "" == Read(s) && Read(s) + Slashes(n) + "" == Read(s) + Slashes(n);
  }

  lemma {:induction false} ReadsBare(s: Scan, text: string, n: nat)
    requires s.slashes == 0 && !s.quoted && NoBlank(text)
    ensures var (s', m) := (ScanFrom(s, Bare(text, n)), Pending(text, n));
            && s'.components == s.components && !s'.quoted && s'.slashes == 0
            && Read(s') + Slashes(m) == Read(s) + (Slashes(n) + text)
            && (s'.buff.Some? || m > 0 <==> s.buff.Some? || n > 0 || text != "")
    decreases |text|
  {
    if text == "" {
      assert Slashes(n) + text == Slashes(n);
    } else if text[0] == '\\' {
      ReadsBare(s, text[1..], n + 1);
      assert Slashes(n + 1) + text[1..] == Slashes(n) + text;
    } else {
      ReadsChar(s, n, text[0]);
      ScanConcat(s, WrittenChar(n, text[0]), Bare(text[1..], 0));
      var s1 := ScanFrom(s, WrittenChar(n, text[0]));
      assert Read(s1) == Read(s) + (Slashes(n) + [text[0]]);
      ReadsBare(s1, text[1..], 0);
      FirstChar(Read(s), Slashes(n), text);
    }
  }

  lemma FirstChar(read: string, slashes: string, text: string)
    requires text != ""
    ensures read + (slashes + [text[0]]) + (Slashes(0) + text[1..]) == read + (slashes + text)
  {
    assert text == [text[0]] + text[1..];
  }

  lemma FirstPiece(read: string, slashes: string, text: string, rest: string)
    ensures (read + (slashes + text)) + rest == read + (slashes + (text + rest))
    ensures (read + slashes + text) + rest == read + (slashes + (text + rest))
    ensures read + (slashes + rest) == (read + slashes) + rest
  {
  }

  lemma WrapInRest(pieces: seq<Piece>)
    requires pieces != [] && !pieces[0].wrap
    ensures SomeWrap(pieces) <==> SomeWrap(pieces[1..])
  {
    if i :| 0 <= i < |pieces| && pieces[i].wrap { assert pieces[1..][i - 1].wrap; }
    if i :| 0 <= i < |pieces[1..]| && pieces[1..][i].wrap { assert pieces[i + 1].wrap; }
  }

  lemma {:induction false} ReadsPieces(s: Scan, pieces: seq<Piece>, n: nat)
    requires s.slashes == 0 && !s.quoted
    requires forall i :: 0 <= i < |pieces| ==> pieces[i].wrap || NoBlank(pieces[i].text)
    ensures var s' := ScanFrom(s, Command(pieces, n));
            && s'.components == s.components && !s'.quoted
            && Flush(s').buff ==
               if s.buff.Some? || n > 0 || SomeWrap(pieces) || TextOf(pieces) != ""
               then Some(Read(s) + (Slashes(n) + TextOf(pieces))) else None
    decreases |pieces|
  {
    if pieces == [] {
      ReadsEnd(s, n, false);
      assert Slashes(n) + "" == Slashes(n);
    } else if pieces[0].wrap {
      ReadsWrapped(s, pieces, n);
    } else {
      var piece, rest := pieces[0], pieces[1..];
      var m := Pending(piece.text, n);
      ReadsBare(s, piece.text, n);
      ScanConcat(s, Bare(piece.text, n), Command(rest, m));
      var s1 := ScanFrom(s, Bare(piece.text, n));
      ReadsPieces(s1, rest, m);
      WrapInRest(pieces);
      FirstPiece(Read(s1), Slashes(m), "", TextOf(rest));
      FirstPiece(Read(s), Slashes(n), piece.text, TextOf(rest));
    }
  }

  lemma {:induction false} ReadsWrapped(s: Scan, pieces: seq<Piece>, n: nat)
    requires s.slashes == 0 && !s.quoted && pieces != [] && pieces[0].wrap
    requires forall i :: 0 <= i < |pieces| ==> pieces[i].wrap || NoBlank(pieces[i].text)
    ensures var s' := ScanFrom(s, Command(pieces, n));
            && s'.components == s.components && !s'.quoted
            && Flush(s').buff == Some(Read(s) + (Slashes(n) + TextOf(pieces)))
    decreases |pieces|, 0
  {
    var piece, rest := pieces[0], pieces[1..];
    var opening, inside := Slashes(2 * n) + "\"", Written(piece.text, 0, true);
    ReadsOpening(s, n);
    var s1 := ScanFrom(s, opening);
    ReadsWritten(s1, piece.text, 0, true);
    var s2 := ScanFrom(s1, inside);
    ScanConcat(s, opening, inside);
    ScanConcat(s, opening + inside, Command(rest, 0));
    ReadsPieces(s2, rest, 0);
    NoSlashes(piece.text);
    NoSlashes(TextOf(rest));
    assert s2.buff == Some(Read(s) + Slashes(n) + piece.text);
    FirstPiece(Read(s), Slashes(n), piece.text, TextOf(rest));
  }

  lemma NoSlashes(text: string)
    ensures Slashes(0) + text == text
  {
  }

  /** A command is read as one component. */
  lemma ReadsCommand(s: Scan, a: Argument)
    requires s.slashes == 0 && !s.quoted && s.buff.None? && Sound(a)
    ensures var s' := ScanFrom(s, Command(a.pieces, 0));
            s'.components == s.components && !s'.quoted && Flush(s').buff == Some(TextOf(a.pieces))
  {
    ReadsPieces(s, a.pieces, 0);
    assert "" + (Slashes(0) + TextOf(a.pieces)) == TextOf(a.pieces);
  }

  lemma {:induction false} SkipsBlanks(s: Scan, blanks: string)
    requires !s.quoted && s.slashes == 0 && s.buff.None?
    requires AllBlank(blanks)
    ensures ScanFrom(s, blanks) == s
    decreases |blanks|
  {
    if blanks != "" { SkipsBlanks(s, blanks[1..]); }
  }

  /** Blanks end the component. */
  lemma CutsAtBlanks(s: Scan, blanks: string)
    requires !s.quoted && blanks != "" && AllBlank(blanks)
    ensures ScanFrom(s, blanks) == Cut(Flush(s))
  {
    SkipsBlanks(Cut(Flush(s)), blanks[1..]);
  }

  lemma {:induction false} ReadsLine(s: Scan, args: seq<Argument>)
    requires s.slashes == 0 && !s.quoted && s.buff.None?
    requires forall i :: 0 <= i < |args| ==> Sound(args[i])
    ensures var s' := ScanFrom(s, Line(args));
            !s'.quoted && Cut(Flush(s')).components == s.components + Texts(args)
    decreases |args|
  {
    if args == [] {
    } else if |args| == 1 {
      ReadsCommand(s, args[0]);
      assert Texts(args) == [TextOf(args[0].pieces)];
    } else {
      var a := args[0];
      ReadsCommand(s, a);
      var s1 := ScanFrom(s, Command(a.pieces, 0));
      CutsAtBlanks(s1, a.blanks);
      ScanConcat(s, Command(a.pieces, 0), a.blanks);
      ScanConcat(s, Command(a.pieces, 0) + a.blanks, Line(args[1..]));
      ReadsLine(Cut(Flush(s1)), args[1..]);
      assert Texts(args) == [TextOf(a.pieces)] + Texts(args[1..]);
    }
  }

  /**
   Splitting a command line gives back exactly its arguments, empty ones and trailing backslashes included, whichever
   pieces of them are in quotes and whatever blanks separate them or stand in front.
   */
  lemma SplitsWhatWasWritten(front: string, args: seq<Argument>)
    requires forall i :: 0 <= i < |args| ==> Sound(args[i])
    requires AllBlank(front)
    ensures Components(front + Line(args)) == Ok(Texts(args))
  {
    SkipsBlanks(START, front);
    ScanConcat(START, front, Line(args));
    var s := ScanFrom(START, front + Line(args));
    ReadsLine(START, args);
    assert !s.quoted && Cut(Flush(s)).components == [] + Texts(args);
    assert [] + Texts(args) == Texts(args);
  }

  // ----- which components there are -------------------------------------------------------------

  /** A blank outside quotes. */
  predicate Separates(text: string, i: nat)
    requires i < |text|
  {
    (text[i] == ' ' || text[i] == '\t') && Quotes(text, i) % 2 == 0
  }

  /** A longest piece of the text without separators. */
  ghost predicate IsRun(text: string, a: nat, b: nat) {
    && a < b <= |text|
    && (forall i :: a <= i < b ==> !Separates(text, i))
    && (a > 0 ==> Separates(text, a - 1)) && (b < |text| ==> Separates(text, b))
  }

  /**
   What a piece of a command line stands for: unescaped quotes are left out, half of the backslashes in front of a quote
   stay, and a quote behind an odd number of them; everything else stands for itself.
   */
  function Meant(piece: string): string {
    if piece == "" then ""
    else
      var n := |piece| - 1;
      var k := RunBefore(piece, n);
      if piece[n] == '\"' then
        RunFits(piece, n);
        Meant(piece[..n - k]) + Slashes(k / 2) + (if k % 2 == 1 then "\"" else "")
      else Meant(piece[..n]) + [piece[n]]
  }

  lemma {:induction false} RunFits(text: string, i: nat)
    requires i <= |text|
    ensures RunBefore(text, i) <= i
    ensures forall j :: i - RunBefore(text, i) <= j < i ==> text[j] == '\\'
  {
    if i > 0 && text[i - 1] == '\\' { RunFits(text, i - 1); }
  }

  lemma MeantPlain(piece: string, c: char)
    requires c != '\"'
    ensures Meant(piece + [c]) == Meant(piece) + [c]
  {
    var longer := piece + [c];
    assert longer[..|longer| - 1] == piece;
  }

  lemma MeantQuote(piece: string, front: string, k: nat)
    requires piece != "" && piece[|piece| - 1] == '\"' && k == RunBefore(piece, |piece| - 1)
    requires k < |piece| && front == piece[..|piece| - 1 - k]
    ensures Meant(piece) == Meant(front) + Slashes(k / 2) + (if k % 2 == 1 then "\"" else "")
  {
  }

  /** Backslashes that no quote follows stand for themselves. */
  lemma {:induction false} MeantSlashes(piece: string, n: nat)
    ensures Meant(piece + Slashes(n)) == Meant(piece) + Slashes(n)
    decreases n
  {
    if n == 0 {
      assert piece + Slashes(0) == piece && Meant(piece) + Slashes(0) == Meant(piece);
    } else {
      MeantSlashes(piece, n - 1);
      assert piece + Slashes(n) == piece + Slashes(n - 1) + ['\\'];
      MeantPlain(piece + Slashes(n - 1), '\\');
      assert Meant(piece) + Slashes(n - 1) + ['\\'] == Meant(piece) + Slashes(n);
    }
  }

  /** The backslashes before a position of a piece are those before it in the text, if the piece starts behind none. */
  lemma {:induction false} RunInside(text: string, a: nat, i: nat)
    requires a <= i <= |text| && (a > 0 ==> text[a - 1] != '\\')
    ensures RunBefore(text[a..], i - a) == RunBefore(text, i) && RunBefore(text, i) <= i - a
    decreases i
  {
    if i > a && text[i - 1] == '\\' { RunInside(text, a, i - 1); }
  }

  lemma {:induction false} RunOfFront(text: string, n: nat, i: nat)
    requires i <= n <= |text|
    ensures RunBefore(text[..n], i) == RunBefore(text, i)
  {
    if i > 0 && text[i - 1] == '\\' { RunOfFront(text, n, i - 1); }
  }

  /** What the runs of a text stand for. */
  function MeantOf(text: string, runs: seq<(nat, nat)>): seq<string>
    requires forall k :: 0 <= k < |runs| ==> runs[k].0 <= runs[k].1 <= |text|
  {
    seq(|runs|, k requires 0 <= k < |runs| => Meant(text[runs[k].0..runs[k].1]))
  }

  /** All the runs that end before position a, in order; one more starts there if a is before n. */
  ghost predicate RunsUpTo(text: string, n: nat, runs: seq<(nat, nat)>, a: nat) {
    && a <= n <= |text|
    && (forall k :: 0 <= k < |runs| ==> IsRun(text, runs[k].0, runs[k].1) && runs[k].1 < a)
    && (forall k, l :: 0 <= k < l < |runs| ==> runs[k].1 < runs[l].0)
    && (forall i :: a <= i < n ==> !Separates(text, i)) && (a > 0 ==> Separates(text, a - 1))
    && (forall i :: 0 <= i < a && !Separates(text, i) ==> exists k :: 0 <= k < |runs| && runs[k].0 <= i < runs[k].1)
  }

  /** The state of the scan behind the first n characters, in terms of the runs. */
  ghost predicate ScanIs(text: string, n: nat, runs: seq<(nat, nat)>, a: nat, s: Scan) {
    && RunsUpTo(text, n, runs, a)
    && s.slashes == RunBefore(text, n) <= n - a && (s.quoted <==> Quotes(text, n) % 2 == 1)
    && s.components == MeantOf(text, runs)
    && BuffIs(text, a, n - s.slashes, s.buff)
  }

  /** What is in the buffer when the run has been read up to position m. */
  ghost predicate BuffIs(text: string, a: nat, m: nat, buff: Option<string>)
    requires a <= m <= |text|
  {
    buff == if a == m then None else Some(Meant(text[a..m]))
  }

  lemma FlushIs(text: string, n: nat, runs: seq<(nat, nat)>, a: nat, s: Scan)
    requires ScanIs(text, n, runs, a, s)
    ensures Flush(s).buff == if a == n then None else Some(Meant(text[a..n]))
  {
    var k := s.slashes;
    RunFits(text, n);
    assert text[a..n] == text[a..n - k] + Slashes(k);
    MeantSlashes(text[a..n - k], k);
    assert a == n - k ==> text[a..n - k] == "" && "" + Slashes(k) == Slashes(k);
  }

  ghost predicate AllRuns(text: string, n: nat, runs: seq<(nat, nat)>) {
    && n <= |text|
    && (forall k :: 0 <= k < |runs| ==> IsRun(text, runs[k].0, runs[k].1))
    && (forall k, l :: 0 <= k < l < |runs| ==> runs[k].1 < runs[l].0)
    && (forall i :: 0 <= i < n && !Separates(text, i) ==> exists k :: 0 <= k < |runs| && runs[k].0 <= i < runs[k].1)
  }

  /** The run at the end of what has been read is one of the text if that or a separator ends it. */
  lemma WithRun(text: string, n: nat, runs: seq<(nat, nat)>, a: nat)
    requires RunsUpTo(text, n, runs, a) && a < n && (n < |text| ==> Separates(text, n))
    ensures AllRuns(text, n, runs + [(a, n)])
    ensures MeantOf(text, runs + [(a, n)]) == MeantOf(text, runs) + [Meant(text[a..n])]
  {
    var more := runs + [(a, n)];
    assert IsRun(text, a, n);
    forall i | 0 <= i < n && !Separates(text, i)
      ensures exists k :: 0 <= k < |more| && more[k].0 <= i < more[k].1
    {
      if i < a {
        var k :| 0 <= k < |runs| && runs[k].0 <= i < runs[k].1;
        assert more[k] == runs[k];
      } else {
        assert more[|runs|] == (a, n);
      }
    }
  }

  /** A separator ends the run, if there is one. */
  lemma EndsRun(text: string, n: nat, runs: seq<(nat, nat)>, a: nat) returns (more: seq<(nat, nat)>)
    requires RunsUpTo(text, n, runs, a) && n < |text| && Separates(text, n)
    ensures RunsUpTo(text, n + 1, more, n + 1)
    ensures MeantOf(text, more) == MeantOf(text, runs) + (if a < n then [Meant(text[a..n])] else [])
  {
    more := runs;
    if a < n {
      WithRun(text, n, runs, a);
      more := runs + [(a, n)];
    }
  }

  lemma SeparatorScanned(text: string, n: nat, runs: seq<(nat, nat)>, a: nat, s: Scan) returns (more: seq<(nat, nat)>)
    requires ScanIs(text, n, runs, a, s) && n < |text| && Separates(text, n)
    ensures ScanIs(text, n + 1, more, n + 1, Next(s, text[n]))
  {
    FlushIs(text, n, runs, a, s);
    more := EndsRun(text, n, runs, a);
    assert Next(s, text[n]) == Cut(Flush(s));
  }

  lemma QuoteMeant(text: string, a: nat, n: nat, k: nat, piece: string, front: string)
    requires a <= n < |text| && text[n] == '\"' && (a > 0 ==> text[a - 1] != '\\')
    requires k == RunBefore(text, n) <= n - a && piece == text[a..n + 1] && front == text[a..n - k]
    ensures Meant(piece) == Meant(front) + Slashes(k / 2) + (if k % 2 == 1 then "\"" else "")
  {
    PieceRun(text, a, n);
    Slices(text, a, n, k);
    MeantQuote(piece, front, k);
  }

  lemma Slices(text: string, a: nat, n: nat, k: nat)
    requires a <= n < |text| && k <= n - a
    ensures var piece := text[a..n + 1];
            |piece| - 1 == n - a && piece[|piece| - 1] == text[n] && text[a..n - k] == piece[..|piece| - 1 - k]
  {
  }

  lemma PieceRun(text: string, a: nat, n: nat)
    requires a <= n < |text| && (a > 0 ==> text[a - 1] != '\\')
    ensures RunBefore(text[a..n + 1], n - a) == RunBefore(text, n) <= n - a
  {
    RunInside(text, a, n);
    RunOfFront(text[a..], n + 1 - a, n - a);
    assert text[a..][..n + 1 - a] == text[a..n + 1];
  }

  lemma QuoteNext(s: Scan)
    ensures var (s', k) := (Next(s, '\"'), s.slashes);
            && s'.components == s.components && s'.slashes == 0
            && s'.quoted == (if k % 2 == 1 then s.quoted else !s.quoted)
            && s'.buff == Some((if s.buff.Some? then s.buff.value else "") + Slashes(k / 2)
                               + (if k % 2 == 1 then "\"" else ""))
  {
    var read := if s.buff.Some? then s.buff.value else "";
    assert Slashes(0) == "" && read + "" == read && read + Slashes(s.slashes / 2) + "" == read + Slashes(s.slashes / 2);
  }

  lemma NextCounts(text: string, n: nat, s: Scan)
    requires n < |text| && s.slashes == RunBefore(text, n) && (s.quoted <==> Quotes(text, n) % 2 == 1)
    ensures var s' := Next(s, text[n]);
            s'.slashes == RunBefore(text, n + 1) && (s'.quoted <==> Quotes(text, n + 1) % 2 == 1)
  {
  }

  lemma RunsGoOn(text: string, n: nat, runs: seq<(nat, nat)>, a: nat)
    requires RunsUpTo(text, n, runs, a) && n < |text| && !Separates(text, n)
    ensures RunsUpTo(text, n + 1, runs, a)
  {
  }

  lemma QuoteBuff(text: string, a: nat, n: nat, s: Scan)
    requires a <= n < |text| && text[n] == '\"' && (a > 0 ==> text[a - 1] != '\\')
    requires s.slashes == RunBefore(text, n) <= n - a && BuffIs(text, a, n - s.slashes, s.buff)
    ensures BuffIs(text, a, n + 1, Next(s, text[n]).buff)
  {
    QuoteMeant(text, a, n, s.slashes, text[a..n + 1], text[a..n - s.slashes]);
    QuoteNext(s);
    var read := if s.buff.Some? then s.buff.value else "";
    assert read == Meant(text[a..n - s.slashes]) by {
      if a == n - s.slashes { assert text[a..n - s.slashes] == ""; }
    }
  }

  lemma QuoteScanned(text: string, n: nat, runs: seq<(nat, nat)>, a: nat, s: Scan)
    requires ScanIs(text, n, runs, a, s) && n < |text| && text[n] == '\"'
    ensures ScanIs(text, n + 1, runs, a, Next(s, text[n]))
  {
    QuoteBuff(text, a, n, s);
    QuoteNext(s);
    RunsGoOn(text, n, runs, a);
    NextCounts(text, n, s);
  }

  lemma PlainBuff(text: string, a: nat, n: nat, s: Scan)
    requires a <= n < |text| && text[n] != '\"' && text[n] != '\\'
    requires Flush(s).buff == if a == n then None else Some(Meant(text[a..n]))
    ensures BuffIs(text, a, n + 1, Some((if Flush(s).buff.Some? then Flush(s).buff.value else "") + [text[n]]))
  {
    MeantPlain(text[a..n], text[n]);
    assert text[a..n + 1] == text[a..n] + [text[n]];
    assert a == n ==> text[a..n] == "";
  }

  lemma OtherScanned(text: string, n: nat, runs: seq<(nat, nat)>, a: nat, s: Scan)
    requires ScanIs(text, n, runs, a, s) && n < |text| && text[n] != '\"' && !Separates(text, n)
    ensures ScanIs(text, n + 1, runs, a, Next(s, text[n]))
  {
    RunsGoOn(text, n, runs, a);
    NextCounts(text, n, s);
    if text[n] == '\\' {
      assert n + 1 - (s.slashes + 1) == n - s.slashes;
    } else {
      FlushIs(text, n, runs, a, s);
      PlainBuff(text, a, n, s);
      PlainNext(s, text[n]);
    }
  }

  lemma PlainNext(s: Scan, c: char)
    requires c != '\"' && c != '\\' && (Blank(c) ==> s.quoted)
    ensures var (s', f) := (Next(s, c), Flush(s));
            && s'.components == s.components && s'.slashes == 0 && s'.quoted == s.quoted
            && s'.buff == Some((if f.buff.Some? then f.buff.value else "") + [c])
  {
  }

  lemma {:induction false} Scanned(text: string, n: nat) returns (runs: seq<(nat, nat)>, a: nat)
    requires n <= |text|
    ensures ScanIs(text, n, runs, a, ScanFrom(START, text[..n]))
  {
    if n == 0 {
      runs, a := [], 0;
    } else {
      var runs0, a0 := Scanned(text, n - 1);
      var s := ScanFrom(START, text[..n - 1]);
      assert text[..n] == text[..n - 1] + [text[n - 1]];
      ScanConcat(START, text[..n - 1], [text[n - 1]]);
      assert ScanFrom(s, [text[n - 1]]) == Next(s, text[n - 1]);
      if Separates(text, n - 1) {
        runs := SeparatorScanned(text, n - 1, runs0, a0, s);
        a := n;
      } else {
        runs, a := runs0, a0;
        if text[n - 1] == '\"' { QuoteScanned(text, n - 1, runs, a, s); }
        else { OtherScanned(text, n - 1, runs, a, s); }
      }
    }
  }

  /**
   With an even number of unescaped quotes the components are what the longest pieces without separators stand for, one
   for each of them and in their order.
   */
  lemma ComponentsAreRuns(text: string) returns (runs: seq<(nat, nat)>)
    requires Quotes(text, |text|) % 2 == 0
    ensures AllRuns(text, |text|, runs) && Components(text) == Ok(MeantOf(text, runs))
  {
    var n, a := |text|, 0;
    runs, a := Scanned(text, n);
    assert text[..n] == text;
    var s := ScanFrom(START, text);
    FlushIs(text, n, runs, a, s);
    assert Components(text) == Ok(Cut(Flush(s)).components);
    if a < n {
      WithRun(text, n, runs, a);
      runs := runs + [(a, n)];
    }
  }
}
