/** The canonical form of a request that Signature Version 4 signs: sorted query, sorted headers. */
module Canonical {
  import opened Sorting
  import opened Text

  datatype Header = Header(name: string, value: string)

  function LowerChar(c: char): char {
    if 'A' <= c <= 'Z' then ((c as int) + 32) as char else c
  }

  function Lower(s: string): string {
    seq(|s|, i requires 0 <= i < |s| => LowerChar(s[i]))
  }

  // ----- the query ------------------------------------------------------------------------------

  function Rendered(pairs: seq<Pair>): seq<string> {
    seq(|pairs|, i requires 0 <= i < |pairs| => pairs[i].key + "=" + pairs[i].value)
  }

  function CanonicalPairs(pairs: seq<Pair>): string {
    Join("&", Rendered(Sorted(PairLe, pairs)))
  }

  /** The pairs of the params attribute, percent-encoded. */
  function Encoded(quote: string -> string, params: seq<Pair>): seq<Pair> {
    seq(|params|, i requires 0 <= i < |params| => Pair(quote(params[i].key), quote(params[i].value)))
  }

  /** partition("="), without the separator. */
  function Partition(piece: string): Pair {
    if piece == "" then Pair("", "")
    else if piece[0] == '=' then Pair("", piece[1..])
    else
      var rest := Partition(piece[1..]);
      Pair([piece[0]] + rest.key, rest.value)
  }

  function Partitioned(pieces: seq<string>): seq<Pair> {
    seq(|pieces|, i requires 0 <= i < |pieces| => Partition(pieces[i]))
  }

  /** The params attribute, or else the query of the URL. */
  function CanonicalQuery(quote: string -> string, params: seq<Pair>, query: string): string {
    if params != [] then CanonicalPairs(Encoded(quote, params))
    else if query == "" then "" else CanonicalPairs(Partitioned(Split('&', query)))
  }

  function Mapped<T, U>(f: T -> U, s: seq<T>): seq<U> {
    seq(|s|, i requires 0 <= i < |s| => f(s[i]))
  }

  lemma Without1<T>(a: seq<T>, i: nat)
    requires i < |a|
    ensures a == a[..i] + [a[i]] + a[i + 1..]
    ensures multiset(a) == multiset(a[..i] + a[i + 1..]) + multiset{a[i]}
  {
    assert a == a[..i] + [a[i]] + a[i + 1..];
  }

  lemma RestsSame<T(!new)>(a: seq<T>, b: seq<T>, i: nat)
    requires multiset(a) == multiset(b) && a != [] && i < |b| && b[i] == a[0]
    ensures multiset(a[1..]) == multiset(b[..i] + b[i + 1..])
  {
    Without1(b, i);
    assert a == [a[0]] + a[1..];
    assert multiset(a[1..]) == multiset(a) - multiset{a[0]};
    assert multiset(b[..i] + b[i + 1..]) == multiset(b) - multiset{b[i]};
  }

  lemma {:induction false} MappedSame<T(!new), U>(f: T -> U, a: seq<T>, b: seq<T>)
    requires multiset(a) == multiset(b)
    ensures multiset(Mapped(f, a)) == multiset(Mapped(f, b))
  {
    assert |a| == |multiset(a)| == |multiset(b)| == |b|;
    if a != [] {
      assert a[0] in multiset(b);
      var i :| 0 <= i < |b| && b[i] == a[0];
      RestsSame(a, b, i);
      MappedSame(f, a[1..], b[..i] + b[i + 1..]);
      MappedFirst(f, a);
      MappedRest(f, b, i);
    }
  }

  lemma MappedFirst<T, U>(f: T -> U, a: seq<T>)
    requires a != []
    ensures multiset(Mapped(f, a)) == multiset(Mapped(f, a[1..])) + multiset{f(a[0])}
  {
    assert Mapped(f, a) == [f(a[0])] + Mapped(f, a[1..]);
  }

  lemma MappedRest<T, U>(f: T -> U, a: seq<T>, i: nat)
    requires i < |a|
    ensures multiset(Mapped(f, a)) == multiset(Mapped(f, a[..i] + a[i + 1..])) + multiset{f(a[i])}
  {
    var m := Mapped(f, a);
    Without1(m, i);
    assert m[..i] + m[i + 1..] == Mapped(f, a[..i] + a[i + 1..]);
  }

  /** The canonical query does not depend on the order of the params. */
  lemma ParamsReordered(quote: string -> string, params: seq<Pair>, params': seq<Pair>, query: string)
    requires multiset(params) == multiset(params')
    ensures CanonicalQuery(quote, params, query) == CanonicalQuery(quote, params', query)
  {
    var encode := (p: Pair) => Pair(quote(p.key), quote(p.value));
    assert |params| == |multiset(params)| == |multiset(params')| == |params'|;
    MappedSame(encode, params, params');
    assert Encoded(quote, params) == Mapped(encode, params) && Encoded(quote, params') == Mapped(encode, params');
    PairsTotal();
    SortedSame(PairLe, Encoded(quote, params), Encoded(quote, params'));
  }

  /** Nor on the order of the pieces of the URL's query. */
  lemma QueryReordered(quote: string -> string, query: string, query': string)
    requires query != "" && query' != "" && multiset(Split('&', query)) == multiset(Split('&', query'))
    ensures CanonicalQuery(quote, [], query) == CanonicalQuery(quote, [], query')
  {
    MappedSame(Partition, Split('&', query), Split('&', query'));
    assert Partitioned(Split('&', query)) == Mapped(Partition, Split('&', query));
    assert Partitioned(Split('&', query')) == Mapped(Partition, Split('&', query'));
    PairsTotal();
    SortedSame(PairLe, Partitioned(Split('&', query)), Partitioned(Split('&', query')));
  }

  // ----- headers --------------------------------------------------------------------------------

  /** get_all for a name in lower case. */
  function Values(headers: seq<Header>, name: string): seq<string> {
    if headers == [] then []
    else (if Lower(headers[0].name) == name then [headers[0].value] else []) + Values(headers[1..], name)
  }

  predicate Unsigned(name: string) {
    name == "expect" || name == "transfer-encoding" || name == "user-agent" || name == "x-amzn-trace-id"
  }

  function Signable(headers: seq<Header>): seq<Header> {
    if headers == [] then []
    else
      var name := Lower(headers[0].name);
      (if Unsigned(name) then [] else [Header(name, headers[0].value)]) + Signable(headers[1..])
  }

  function HeadersToSign(headers: seq<Header>, host: string): seq<Header> {
    var h := Signable(headers);
    if Values(h, "host") == [] then h + [Header("host", host)] else h
  }

  /** The distinct names of headers. */
  function Names(headers: seq<Header>): seq<string> {
    if headers == [] then []
    else
      var rest := Names(headers[1..]);
      if headers[0].name in rest then rest else [headers[0].name] + rest
  }

  function Word(s: string): (n: nat)
    ensures n <= |s|
  {
    if s == "" || IsSpace(s[0]) then 0 else 1 + Word(s[1..])
  }

  /** split without arguments. */
  function Words(s: string): seq<string>
    decreases |s|
  {
    if s == "" then []
    else if IsSpace(s[0]) then Words(s[1..])
    else [s[..Word(s)]] + Words(s[Word(s)..])
  }

  function Trimmed(value: string): string {
    Join(" ", Words(value))
  }

  function CanonicalHeader(headers: seq<Header>, name: string): string {
    name + ":" + Join(",", Mapped(Trimmed, Values(headers, name)))
  }

  function CanonicalHeaders(headers: seq<Header>): string {
    Join("\n", Mapped(name => CanonicalHeader(headers, name), Sorted(StringLe, Names(headers))))
  }

  function Stripped(s: string): string {
    if s != "" && IsSpace(s[0]) then Stripped(s[1..])
    else if s != "" && IsSpace(s[|s| - 1]) then Stripped(s[..|s| - 1])
    else s
  }

  function SignedName(name: string): string {
    Stripped(Lower(name))
  }

  function SignedHeaders(headers: seq<Header>): string {
    Join(";", Sorted(StringLe, Mapped(SignedName, Names(headers))))
  }

  /** The same values in the same order under every name. */
  ghost predicate SameByName(h: seq<Header>, h': seq<Header>) {
    forall name :: Values(h, name) == Values(h', name)
  }

  lemma LowerTwice(s: string)
    ensures Lower(Lower(s)) == Lower(s)
  {
  }

  ghost predicate LowerNames(headers: seq<Header>) {
    forall i :: 0 <= i < |headers| ==> Lower(headers[i].name) == headers[i].name
  }

  lemma {:induction false} ValuesConcat(a: seq<Header>, b: seq<Header>, name: string)
    ensures Values(a + b, name) == Values(a, name) + Values(b, name)
  {
    if a == [] {
      assert a + b == b;
    } else {
      assert (a + b)[1..] == a[1..] + b;
      ValuesConcat(a[1..], b, name);
    }
  }

  lemma {:induction false} SignableIs(headers: seq<Header>, name: string)
    ensures LowerNames(Signable(headers))
    ensures Values(Signable(headers), name) == if Unsigned(name) then [] else Values(headers, name)
  {
    if headers != [] {
      SignableIs(headers[1..], name);
      var lower := Lower(headers[0].name);
      LowerTwice(headers[0].name);
      var first := if Unsigned(lower) then [] else [Header(lower, headers[0].value)];
      ValuesConcat(first, Signable(headers[1..]), name);
      assert Values(first, name) == if lower == name && !Unsigned(name) then [headers[0].value] else [];
    }
  }

  lemma ToSignIs(h: seq<Header>, host: string, name: string)
    ensures Values(HeadersToSign(h, host), name) ==
            if Unsigned(name) then [] else if name == "host" && Values(h, name) == [] then [host] else Values(h, name)
  {
    var hosted := [Header("host", host)];
    assert Lower("host") == "host";
    SignableIs(h, "host");
    SignableIs(h, name);
    if Values(Signable(h), "host") == [] {
      ValuesConcat(Signable(h), hosted, name);
      assert Values(hosted, name) == if name == "host" then [host] else [] by { assert hosted[1..] == []; }
    }
  }

  lemma ToSignLower(h: seq<Header>, host: string)
    ensures LowerNames(HeadersToSign(h, host))
  {
    SignableIs(h, "host");
    assert Lower("host") == "host";
  }

  lemma ToSignSame(h: seq<Header>, h': seq<Header>, host: string)
    requires SameByName(h, h')
    ensures SameByName(HeadersToSign(h, host), HeadersToSign(h', host))
    ensures LowerNames(HeadersToSign(h, host)) && LowerNames(HeadersToSign(h', host))
  {
    forall name: string ensures Values(HeadersToSign(h, host), name) == Values(HeadersToSign(h', host), name) {
      ToSignIs(h, host, name);
      ToSignIs(h', host, name);
    }
    ToSignLower(h, host);
    ToSignLower(h', host);
  }

  /** A name is listed once if it has values, and not otherwise. */
  lemma {:induction false} NamesCount(headers: seq<Header>, name: string)
    requires LowerNames(headers)
    ensures multiset(Names(headers))[name] == if Values(headers, name) != [] then 1 else 0
  {
    if headers != [] {
      NamesCount(headers[1..], name);
      NamesCount(headers[1..], headers[0].name);
      var rest := Names(headers[1..]);
      assert headers[0].name in rest <==> multiset(rest)[headers[0].name] > 0;
    }
  }

  lemma NamesSame(h: seq<Header>, h': seq<Header>)
    requires LowerNames(h) && LowerNames(h') && SameByName(h, h')
    ensures multiset(Names(h)) == multiset(Names(h'))
  {
    forall name: string ensures multiset(Names(h))[name] == multiset(Names(h'))[name] {
      NamesCount(h, name);
      NamesCount(h', name);
      assert Values(h, name) == Values(h', name);
    }
  }

  /** Headers may be reordered as long as the order within each name is kept. */
  lemma HeadersReordered(h: seq<Header>, h': seq<Header>, host: string)
    requires SameByName(h, h')
    ensures CanonicalHeaders(HeadersToSign(h, host)) == CanonicalHeaders(HeadersToSign(h', host))
    ensures SignedHeaders(HeadersToSign(h, host)) == SignedHeaders(HeadersToSign(h', host))
  {
    ToSignSame(h, h', host);
    var s, s' := HeadersToSign(h, host), HeadersToSign(h', host);
    NamesSame(s, s');
    StringsTotal();
    SortedSame(StringLe, Names(s), Names(s'));
    var line, line' := name => CanonicalHeader(s, name), name => CanonicalHeader(s', name);
    assert forall name :: Values(s, name) == Values(s', name);
    assert Mapped(line, Sorted(StringLe, Names(s))) == Mapped(line', Sorted(StringLe, Names(s')));
    MappedSame(SignedName, Names(s), Names(s'));
    SortedSame(StringLe, Mapped(SignedName, Names(s)), Mapped(SignedName, Names(s')));
  }
}
