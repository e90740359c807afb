/** Python's int() and str() on the texts the patch code uses for array indices. */
module Text {
  import opened Outcomes

  predicate IsDigit(c: char) {
    '0' <= c <= '9'
  }

  predicate AllDigits(s: string) {
    forall i :: 0 <= i < |s| ==> IsDigit(s[i])
  }

  function DigitsValue(s: string): nat
    requires AllDigits(s)
  {
    if s == [] then 0
    else 10 * DigitsValue(s[..|s| - 1]) + (s[|s| - 1] as int - '0' as int)
  }

  /** str(n) for a natural number. */
  function Dec(n: nat): (s: string)
    ensures |s| > 0 && AllDigits(s)
    ensures s[0] == '0' ==> s == "0"
    ensures n > 0 ==> s[0] != '0'
  {
    var last := ('0' as int + n % 10) as char;
    if n < 10 then [last] else Dec(n / 10) + [last]
  }

  /** str(n) for any integer. */
  function Str(n: int): string {
    if n < 0 then ['-'] + Dec(-n) else Dec(n)
  }

  lemma {:induction false} DecValue(n: nat)
    ensures DigitsValue(Dec(n)) == n
  {
    var s := Dec(n);
    var last := ('0' as int + n % 10) as char;
    if n < 10 {
      assert s[..|s| - 1] == [];
    } else {
      DecValue(n / 10);
      assert s[..|s| - 1] == Dec(n / 10);
    }
  }

  /** A canonical array index: "0", or digits that do not start with '0'. */
  predicate IsIndexToken(s: string) {
    |s| > 0 && AllDigits(s) && (s[0] == '0' ==> |s| == 1)
  }

  /** The array index a token denotes, if it is canonical. */
  function IndexOf(s: string): Option<nat> {
    if IsIndexToken(s) then Some(DigitsValue(s)) else None
  }

  lemma IndexOfDec(n: nat)
    ensures IndexOf(Dec(n)) == Some(n)
  {
    DecValue(n);
  }

  lemma {:induction false} DigitsPositive(s: string)
    requires AllDigits(s) && |s| > 0 && s[0] != '0'
    ensures DigitsValue(s) > 0
  {
    if |s| > 1 {
      DigitsPositive(s[..|s| - 1]);
    }
  }

  lemma {:induction false} DecOfIndex(s: string)
    requires IsIndexToken(s)
    ensures Dec(DigitsValue(s)) == s
  {
    var front, last := s[..|s| - 1], s[|s| - 1];
    if |s| == 1 {
      assert front == [];
    } else {
      DecOfIndex(front);
      DigitsPositive(front);
      assert s == front + [last];
    }
  }

  /** Canonical indices: one text per number. */
  lemma IndexInjective(s: string, t: string)
    requires IndexOf(s).Some? && IndexOf(s) == IndexOf(t)
    ensures s == t
  {
    DecOfIndex(s);
    DecOfIndex(t);
  }

  // ----- int(text), for ASCII text ------------------------------------------------

  predicate IsSpace(c: char) {
    c == ' ' || '\t' <= c <= '\r' || '\U{1C}' <= c <= '\U{1F}'
  }

  /** The forms of integer texts: with white space around, with a sign, and bare digits. */
  datatype Form = Padded | Signed | Bare

  function Negated(r: Option<int>): Option<int> {
    match r case None => None case Some(n) => Some(-n)
  }

  function WithDigit(r: Option<int>, c: char): Option<int> {
    match r case None => None case Some(n) => Some(10 * n + (c as int - '0' as int))
  }

  /** A single underscore is allowed between two digits. */
  function IntText(form: Form, s: string): Option<int>
    decreases if form == Padded then 2 else if form == Signed then 1 else 0, |s|
  {
    match form
    case Padded =>
      if s != [] && IsSpace(s[0]) then IntText(Padded, s[1..])
      else if s != [] && IsSpace(s[|s| - 1]) then IntText(Padded, s[..|s| - 1])
      else IntText(Signed, s)
    case Signed =>
      if s != [] && s[0] == '+' then IntText(Bare, s[1..])
      else if s != [] && s[0] == '-' then Negated(IntText(Bare, s[1..]))
      else IntText(Bare, s)
    case Bare =>
      if s == [] || !IsDigit(s[|s| - 1]) then None
      else if |s| == 1 then WithDigit(Some(0), s[0])
      else WithDigit(IntText(Bare, if s[|s| - 2] == '_' then s[..|s| - 2] else s[..|s| - 1]), s[|s| - 1])
  }

  /** int(s). None stands for the ValueError. */
  function PyInt(s: string): Option<int> {
    IntText(Padded, s)
  }

  lemma {:induction false} BareDec(n: nat)
    ensures IntText(Bare, Dec(n)) == Some(n)
  {
    var s := Dec(n);
    if n >= 10 {
      BareDec(n / 10);
      assert s[..|s| - 1] == Dec(n / 10);
      assert s[|s| - 2] == Dec(n / 10)[|s| - 2];
    }
  }

  /** int(str(n)) is n: the key setter and the key getter agree. */
  lemma PyIntStr(n: int)
    ensures PyInt(Str(n)) == Some(n)
  {
    BareDec(if n < 0 then -n else n);
    var s := Str(n);
    assert n < 0 ==> s[1..] == Dec(-n);
    assert !IsSpace(s[0]) && !IsSpace(s[|s| - 1]);
    assert IntText(Signed, s) == Some(n);
  }

  // ----- str.join and str.split -----------------------------------------------------

  function Join(sep: string, parts: seq<string>): string {
    if parts == [] then []
    else if |parts| == 1 then parts[0]
    else parts[0] + sep + Join(sep, parts[1..])
  }

  /** split with a separator of one character. */
  function Split(sep: char, s: string): (parts: seq<string>)
    ensures |parts| > 0
  {
    if s == [] then [""]
    else
      var rest := Split(sep, s[1..]);
      if s[0] == sep then [""] + rest
      else [[s[0]] + rest[0]] + rest[1..]
  }

  lemma {:induction false} JoinSplit(sep: char, s: string)
    ensures forall i :: 0 <= i < |Split(sep, s)| ==> sep !in Split(sep, s)[i]
    ensures Join([sep], Split(sep, s)) == s
  {
    if s != [] {
      JoinSplit(sep, s[1..]);
    }
  }

  /** A text without the separator goes to the first part. */
  lemma {:induction false} SplitBefore(sep: char, s: string, t: string)
    requires sep !in s
    ensures Split(sep, s + t) == [s + Split(sep, t)[0]] + Split(sep, t)[1..]
  {
    var tail := Split(sep, t);
    if s == [] {
      assert s + t == t;
      assert s + tail[0] == tail[0];
    } else {
      SplitBefore(sep, s[1..], t);
      assert (s + t)[1..] == s[1..] + t;
      var rest := [s[1..] + tail[0]] + tail[1..];
      assert s[0] in s;
      assert rest[1..] == tail[1..];
      assert [s[0]] + (s[1..] + tail[0]) == s + tail[0];
    }
  }

  /** Parts without the separator are split back. */
  lemma {:induction false} SplitJoin(sep: char, parts: seq<string>)
    requires parts != [] && forall i :: 0 <= i < |parts| ==> sep !in parts[i]
    ensures Split(sep, Join([sep], parts)) == parts
  {
    if |parts| == 1 {
      SplitBefore(sep, parts[0], "");
      assert parts[0] + "" == parts[0] && parts == [parts[0]];
    } else {
      SplitJoin(sep, parts[1..]);
      var tail := [sep] + Join([sep], parts[1..]);
      assert tail[1..] == Join([sep], parts[1..]);
      assert Split(sep, tail) == [""] + parts[1..];
      SplitBefore(sep, parts[0], tail);
      assert parts[0] + [sep] + Join([sep], parts[1..]) == parts[0] + tail;
      assert parts[0] + "" == parts[0] && parts == [parts[0]] + parts[1..];
    }
  }
}
