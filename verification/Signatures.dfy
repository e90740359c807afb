/**
 What a signature says: what stands where in the text that is signed, and that two requests with one signature agree in
 everything that is signed, unless the hash functions collide on them.
 */
module Signatures {
  import opened Sorting
  import opened Text
  import opened Canonical
  import opened Signing

  predicate OneLine(s: string) {
    '\n' !in s
  }

  predicate AllOneLine(lines: seq<string>) {
    forall i :: 0 <= i < |lines| ==> '\n' !in lines[i]
  }

  // ----- the lines of the canonical request -----------------------------------------------------

  lemma {:induction false} JoinConcat(sep: string, a: seq<string>, b: seq<string>)
    requires a != [] && b != []
    ensures Join(sep, a + b) == Join(sep, a) + sep + Join(sep, b)
  {
    if |a| == 1 {
      assert (a + b)[1..] == b;
    } else {
      assert (a + b)[1..] == a[1..] + b;
      JoinConcat(sep, a[1..], b);
      assert a[0] + sep + (Join(sep, a[1..]) + sep + Join(sep, b)) ==
               (a[0] + sep + Join(sep, a[1..])) + sep + Join(sep, b);
    }
  }

  /** Lines joined and followed by a newline, among other lines, are those lines and an empty one. */
  lemma JoinNested(a: seq<string>, lines: seq<string>, b: seq<string>)
    requires a != [] && lines != [] && b != []
    ensures Join("\n", a + [Join("\n", lines) + "\n"] + b) == Join("\n", a + lines + [""] + b)
  {
    var block := Join("\n", lines) + "\n";
    JoinConcat("\n", a, [block]);
    JoinConcat("\n", a + [block], b);
    JoinConcat("\n", a, lines);
    JoinConcat("\n", a + lines, [""]);
    JoinConcat("\n", a + lines + [""], b);
    assert Join("\n", [block]) == block && Join("\n", [""]) == "";
    assert (Join("\n", a) + "\n" + Join("\n", lines)) + "\n" + "" == Join("\n", a) + "\n" + block;
  }

  /** The names of the signed headers, in the order in which they are signed. */
  function SignedNames(h: seq<Header>, host: string): seq<string> {
    Sorted(StringLe, Names(HeadersToSign(h, host)))
  }

  function HeaderLines(h: seq<Header>, host: string): seq<string> {
    Mapped(name => CanonicalHeader(HeadersToSign(h, host), name), SignedNames(h, host))
  }

  function CanonicalPath(lib: Library, s3: bool, f: Fixed): string {
    if s3 then f.path else lib.normalPath(f.path)
  }

  function Query(lib: Library, f: Fixed): string {
    CanonicalQuery(lib.quote, f.params, f.query)
  }

  function NamesLine(f: Fixed, h: seq<Header>): string {
    SignedHeaders(HeadersToSign(h, f.host))
  }

  /** No part of the canonical request has a newline in it. */
  ghost predicate Clean(lib: Library, s3: bool, f: Fixed, h: seq<Header>) {
    && OneLine(f.verb) && OneLine(CanonicalPath(lib, s3, f)) && OneLine(Query(lib, f))
    && OneLine(NamesLine(f, h)) && OneLine(ContentHash(lib, s3, f, h))
    && (forall name :: name in SignedNames(h, f.host) ==> OneLine(name)) && OneLine(f.host)
  }

  lemma {:induction false} WordsPlain(s: string)
    ensures forall i, j :: 0 <= i < |Words(s)| && 0 <= j < |Words(s)[i]| ==> !IsSpace(Words(s)[i][j])
    decreases |s|
  {
    if s != "" {
      if IsSpace(s[0]) {
        WordsPlain(s[1..]);
      } else {
        WordIs(s);
        WordsPlain(s[Word(s)..]);
      }
    }
  }

  lemma {:induction false} WordIs(s: string)
    ensures forall j :: 0 <= j < Word(s) ==> !IsSpace(s[j])
    ensures Word(s) < |s| ==> IsSpace(s[Word(s)])
  {
    if s != "" && !IsSpace(s[0]) {
      WordIs(s[1..]);
      forall j | 0 <= j < Word(s) ensures !IsSpace(s[j]) {
        if j > 0 { assert s[j] == s[1..][j - 1]; }
      }
    }
  }

  lemma {:induction false} JoinWithout(sep: string, parts: seq<string>, c: char)
    requires c !in sep && forall i :: 0 <= i < |parts| ==> c !in parts[i]
    ensures c !in Join(sep, parts)
  {
    if |parts| > 1 { JoinWithout(sep, parts[1..], c); }
  }

  /** The value of a signed header is on one line, whatever was in it. */
  lemma TrimmedOneLine(value: string)
    ensures OneLine(Trimmed(value))
  {
    WordsPlain(value);
    assert forall i :: 0 <= i < |Words(value)| ==> '\n' !in Words(value)[i];
    JoinWithout(" ", Words(value), '\n');
  }

  lemma HeaderOneLine(h: seq<Header>, name: string)
    requires OneLine(name)
    ensures OneLine(CanonicalHeader(h, name))
  {
    var values := Mapped(Trimmed, Values(h, name));
    forall i | 0 <= i < |values| ensures '\n' !in values[i] { TrimmedOneLine(Values(h, name)[i]); }
    JoinWithout(",", values, '\n');
  }

  /** Which names are signed: those of the headers, but for the unsigned ones, and the host; once each, in order. */
  lemma SignedNamesAre(h: seq<Header>, host: string)
    ensures var names := SignedNames(h, host);
            && (forall n :: n in names <==>
                  || n == "host"
                  || (Values(h, n) != [] && n != "expect" && n != "transfer-encoding" && n != "user-agent"
                      && n != "x-amzn-trace-id"))
            && (forall i, j :: 0 <= i < j < |names| ==> StringLe(names[i], names[j]) && names[i] != names[j])
  {
    var signed := HeadersToSign(h, host);
    var names := SignedNames(h, host);
    ToSignLower(h, host);
    StringsTotal();
    SortedIs(StringLe, Names(signed));
    forall n ensures n in names <==> n == "host" || (Values(h, n) != [] && !Unsigned(n)) {
      NamesCount(signed, n);
      ToSignIs(h, host, n);
      assert n in names <==> multiset(names)[n] > 0;
    }
    forall i, j | 0 <= i < j < |names| ensures names[i] != names[j] {
      NamesCount(signed, names[i]);
      TwiceIn(names, i, j);
    }
  }

  lemma TwiceIn(s: seq<string>, i: nat, j: nat)
    requires i < j < |s| && multiset(s)[s[i]] <= 1
    ensures s[i] != s[j]
  {
    assert s == s[..j] + [s[j]] + s[j + 1..];
    assert s[i] in s[..j];
    assert multiset(s) == multiset(s[..j]) + multiset{s[j]} + multiset(s[j + 1..]);
  }

  /** One line for each signed name: the name, a colon, and its values with their white space trimmed, or the host. */
  lemma HeaderLineIs(h: seq<Header>, host: string, i: nat)
    requires i < |SignedNames(h, host)|
    ensures |HeaderLines(h, host)| == |SignedNames(h, host)|
    ensures var name := SignedNames(h, host)[i];
            HeaderLines(h, host)[i] ==
              name + ":" + Join(",", Mapped(Trimmed, if Values(h, name) == [] then [host] else Values(h, name)))
  {
    var name := SignedNames(h, host)[i];
    SignedNamesAre(h, host);
    assert name in SignedNames(h, host);
    ToSignIs(h, host, name);
  }

  /**
   The lines of the canonical request: the verb, the path, the query, a line for each signed header, an empty one, the
   signed names, and the hash.
   */
  lemma CanonicalLines(lib: Library, s3: bool, f: Fixed, h: seq<Header>)
    requires Clean(lib, s3, f, h)
    ensures Split('\n', CanonicalRequest(lib, s3, f, h)) ==
            Above(lib, s3, f) + HeaderLines(h, f.host) + [""] + Beneath(lib, s3, f, h)
  {
    HeadersJoined(h, f.host);
    LinesClean(h, f.host);
    EndsClean(lib, s3, f, h);
    CanonicalIs(lib, s3, f, h);
    Block(Above(lib, s3, f), HeaderLines(h, f.host), Beneath(lib, s3, f, h));
  }

  /** The lines in front of the headers, and those behind. */
  function Above(lib: Library, s3: bool, f: Fixed): seq<string> {
    [f.verb, CanonicalPath(lib, s3, f), Query(lib, f)]
  }

  function Beneath(lib: Library, s3: bool, f: Fixed, h: seq<Header>): seq<string> {
    [NamesLine(f, h), ContentHash(lib, s3, f, h)]
  }

  lemma EndsClean(lib: Library, s3: bool, f: Fixed, h: seq<Header>)
    requires Clean(lib, s3, f, h)
    ensures AllOneLine(Above(lib, s3, f)) && AllOneLine(Beneath(lib, s3, f, h))
  {
    FewOneLine(f.verb, CanonicalPath(lib, s3, f), Query(lib, f));
    FewOneLine(NamesLine(f, h), ContentHash(lib, s3, f, h), "");
  }

  lemma FewOneLine(x: string, y: string, z: string)
    requires OneLine(x) && OneLine(y) && OneLine(z)
    ensures AllOneLine([x, y, z]) && AllOneLine([x, y])
  {
  }

  lemma LinesClean(h: seq<Header>, host: string)
    requires forall name :: name in SignedNames(h, host) ==> OneLine(name)
    ensures AllOneLine(HeaderLines(h, host))
  {
    var lines, names := HeaderLines(h, host), SignedNames(h, host);
    forall i | 0 <= i < |lines| ensures '\n' !in lines[i] {
      assert names[i] in names;
      HeaderOneLine(HeadersToSign(h, host), names[i]);
    }
  }

  lemma HeadersJoined(h: seq<Header>, host: string)
    ensures CanonicalHeaders(HeadersToSign(h, host)) == Join("\n", HeaderLines(h, host)) && HeaderLines(h, host) != []
  {
    SignedNamesAre(h, host);
    assert "host" in SignedNames(h, host);
  }

  lemma CanonicalIs(lib: Library, s3: bool, f: Fixed, h: seq<Header>)
    ensures CanonicalRequest(lib, s3, f, h) ==
            Join("\n", Above(lib, s3, f) + [Join("\n", HeaderLines(h, f.host)) + "\n"] + Beneath(lib, s3, f, h))
  {
    HeadersJoined(h, f.host);
    SixParts(f.verb, CanonicalPath(lib, s3, f), Query(lib, f), Join("\n", HeaderLines(h, f.host)) + "\n",
             NamesLine(f, h), ContentHash(lib, s3, f, h));
  }

  lemma SixParts(a: string, b: string, c: string, d: string, e: string, f: string)
    ensures [a, b, c] + [d] + [e, f] == [a, b, c, d, e, f]
  {
  }

  /** A block of lines among others. */
  lemma Block(a: seq<string>, lines: seq<string>, b: seq<string>)
    requires a != [] && b != [] && lines != []
    requires AllOneLine(a) && AllOneLine(lines) && AllOneLine(b)
    ensures Split('\n', Join("\n", a + [Join("\n", lines) + "\n"] + b)) == a + lines + [""] + b
  {
    JoinNested(a, lines, b);
    AllWithout(a, lines, b);
    SplitJoin('\n', a + lines + [""] + b);
  }

  lemma AllWithout(a: seq<string>, lines: seq<string>, b: seq<string>)
    requires AllOneLine(a) && AllOneLine(lines) && AllOneLine(b)
    ensures AllOneLine(a + lines + [""] + b)
  {
  }

  /** The text that is signed has four lines, and the fourth is the hash of the canonical request. */
  lemma SignedText(lib: Library, s: Signer, timestamp: string, canonical: string)
    requires OneLine(timestamp) && OneLine(Scope(s, timestamp)) && OneLine(lib.sha256(canonical))
    ensures Split('\n', StringToSign(lib, s, timestamp, canonical)) ==
            ["AWS4-HMAC-SHA256", timestamp, Scope(s, timestamp), lib.sha256(canonical)]
  {
    var parts := ["AWS4-HMAC-SHA256", timestamp, Scope(s, timestamp), lib.sha256(canonical)];
    assert '\n' !in "AWS4-HMAC-SHA256";
    SplitJoin('\n', parts);
  }

  /** The scope is the day, the region and the service. */
  lemma ScopeParts(s: Signer, timestamp: string)
    requires '/' !in Day(timestamp) && '/' !in s.region && '/' !in s.service
    ensures Split('/', Scope(s, timestamp)) == [Day(timestamp), s.region, s.service, "aws4_request"]
  {
    var parts := [Day(timestamp), s.region, s.service, "aws4_request"];
    assert '/' !in "aws4_request";
    SplitJoin('/', parts);
  }

  // ----- what stands in the header --------------------------------------------------------------

  /**
   The header reads as the algorithm, the access key with the scope, the names of the signed headers, and the signature,
   for names and a scope without blanks.
   */
  lemma AuthorizationReads(lib: Library, s: Signer, f: Fixed, h: seq<Header>, timestamp: string)
    requires ' ' !in s.credentials.accessKey && ' ' !in Scope(s, timestamp) && ' ' !in NamesLine(f, h)
    requires forall key, text :: ' ' !in lib.hexHmac(key, text)
    ensures var text := StringToSign(lib, s, timestamp, CanonicalRequest(lib, s.s3, f, h));
            Split(' ', Authorization(lib, s, f, h, timestamp)) ==
              ["AWS4-HMAC-SHA256", "Credential=" + s.credentials.accessKey + "/" + Scope(s, timestamp) + ",",
               "SignedHeaders=" + NamesLine(f, h) + ",", "Signature=" + Signature(lib, s, timestamp, text)]
  {
    var text := StringToSign(lib, s, timestamp, CanonicalRequest(lib, s.s3, f, h));
    var scope, signature := Scope(s, timestamp), Signature(lib, s, timestamp, text);
    FourWords(s.credentials.accessKey + "/" + scope, NamesLine(f, h), signature);
    Grouped("AWS4-HMAC-SHA256 Credential=", s.credentials.accessKey, scope);
    Grouped("Credential=", s.credentials.accessKey, scope);
  }

  lemma Grouped(front: string, key: string, scope: string)
    ensures front + (key + "/" + scope) == front + key + "/" + scope
  {
  }

  lemma FourWords(x: string, y: string, z: string)
    requires ' ' !in x && ' ' !in y && ' ' !in z
    ensures Split(' ', Join(", ", ["AWS4-HMAC-SHA256 Credential=" + x, "SignedHeaders=" + y, "Signature=" + z])) ==
            ["AWS4-HMAC-SHA256", "Credential=" + x + ",", "SignedHeaders=" + y + ",", "Signature=" + z]
  {
    var (a, b, c) := ("Credential=" + x, "SignedHeaders=" + y, "Signature=" + z);
    assert "AWS4-HMAC-SHA256 Credential=" + x == "AWS4-HMAC-SHA256" + " " + a;
    assert ' ' !in a && ' ' !in b && ' ' !in c && ' ' !in "AWS4-HMAC-SHA256";
    CommaWords("AWS4-HMAC-SHA256", a, b, c);
  }

  lemma CommaWords(alg: string, a: string, b: string, c: string)
    requires ' ' !in alg && ' ' !in a && ' ' !in b && ' ' !in c
    ensures Split(' ', Join(", ", [alg + " " + a, b, c])) == [alg, a + ",", b + ",", c]
  {
    var first := alg + " " + a;
    assert Join(", ", [b, c]) == b + ", " + c by { assert [b, c][1..] == [c]; }
    assert Join(", ", [first, b, c]) == first + ", " + (b + ", " + c) by { assert [first, b, c][1..] == [b, c]; }
    FourJoined(alg, a + ",", b + ",", c);
    assert b + ", " + c == (b + ",") + " " + c;
    assert first + ", " + (b + ", " + c) == alg + " " + ((a + ",") + " " + (b + ", " + c));
  }

  lemma FourJoined(a: string, b: string, c: string, d: string)
    requires ' ' !in a && ' ' !in b && ' ' !in c && ' ' !in d
    ensures Split(' ', a + " " + (b + " " + (c + " " + d))) == [a, b, c, d]
  {
    assert [c, d][1..] == [d] && [b, c, d][1..] == [c, d] && [a, b, c, d][1..] == [b, c, d];
    assert Join(" ", [c, d]) == c + " " + d;
    assert Join(" ", [b, c, d]) == b + " " + Join(" ", [c, d]);
    assert Join(" ", [a, b, c, d]) == a + " " + Join(" ", [b, c, d]);
    SplitJoin(' ', [a, b, c, d]);
  }

  /**
   Between the slashes of the credential stand the access key and the scope: the day, which is what the timestamp has in
   front of its T, the region and the service.
   */
  lemma CredentialParts(s: Signer, day: string, time: string)
    requires '/' !in s.credentials.accessKey && '/' !in day && '/' !in s.region && '/' !in s.service && |day| == 8
    ensures Split('/', s.credentials.accessKey + "/" + Scope(s, day + "T" + time)) ==
            [s.credentials.accessKey, day, s.region, s.service, "aws4_request"]
  {
    var scope := [day, s.region, s.service, "aws4_request"];
    assert '/' !in "aws4_request" && Day(day + "T" + time) == day;
    assert ([s.credentials.accessKey] + scope)[1..] == scope;
    SplitJoin('/', [s.credentials.accessKey] + scope);
  }

  // ----- one signature, one request -------------------------------------------------------------

  /** Two texts with one hash, or with one keyed hash under the same key. */
  ghost predicate Collide(lib: Library, key: string, x: string, y: string) {
    x != y && (lib.sha256(x) == lib.sha256(y) || lib.hexHmac(key, x) == lib.hexHmac(key, y))
  }

  lemma {:induction false} AfterLast(c: char, a: string, x: string, b: string, y: string)
    requires c !in x && c !in y && a + [c] + x == b + [c] + y
    ensures x == y
    decreases |x|
  {
    var all := a + [c] + x;
    assert all[|all| - 1] == if x == [] then c else x[|x| - 1];
    assert (b + [c] + y)[|all| - 1] == if y == [] then c else y[|y| - 1];
    if x != [] && y != [] {
      assert all[..|all| - 1] == a + [c] + x[..|x| - 1] && (b + [c] + y)[..|all| - 1] == b + [c] + y[..|y| - 1];
      AfterLast(c, a, x[..|x| - 1], b, y[..|y| - 1]);
      assert x == x[..|x| - 1] + [x[|x| - 1]] && y == y[..|y| - 1] + [y[|y| - 1]];
    }
  }

  /** The header value ends with the signature. */
  lemma AuthorizationEnds(lib: Library, s: Signer, f: Fixed, h: seq<Header>, timestamp: string) returns (front: string)
    ensures var text := StringToSign(lib, s, timestamp, CanonicalRequest(lib, s.s3, f, h));
            Authorization(lib, s, f, h, timestamp) == front + "=" + Signature(lib, s, timestamp, text)
  {
    var text := StringToSign(lib, s, timestamp, CanonicalRequest(lib, s.s3, f, h));
    var credential := "AWS4-HMAC-SHA256 Credential=" + s.credentials.accessKey + "/" + Scope(s, timestamp);
    front := ThreeParts(credential, "SignedHeaders=" + SignedHeaders(HeadersToSign(h, f.host)),
                        Signature(lib, s, timestamp, text));
  }

  lemma ThreeParts(x: string, y: string, z: string) returns (front: string)
    ensures Join(", ", [x, y, "Signature=" + z]) == front + "=" + z
  {
    front := x + ", " + (y + ", " + "Signature");
    var last := "Signature=" + z;
    assert [x, y, last][1..] == [y, last] && [y, last][1..] == [last];
    assert Join(", ", [y, last]) == y + ", " + last;
    assert "Signature=" == "Signature" + "=";
    assert x + ", " + (y + ", " + last) == front + "=" + z;
  }

  /**
   Two requests that one signer signs alike at one time have the same canonical request, or a collision of the hash
   functions has been found: on the canonical requests, or on the texts to sign.
   */
  lemma SameCanonical(lib: Library, s: Signer, timestamp: string, f: Fixed, h: seq<Header>, f': Fixed, h': seq<Header>)
    requires Authorization(lib, s, f, h, timestamp) == Authorization(lib, s, f', h', timestamp)
    requires forall key, text :: '=' !in lib.hexHmac(key, text)
    ensures var (key, c, c') := (SigningKey(lib, s, timestamp), CanonicalRequest(lib, s.s3, f, h),
                                 CanonicalRequest(lib, s.s3, f', h'));
            || c == c' || Collide(lib, key, c, c')
            || Collide(lib, key, StringToSign(lib, s, timestamp, c), StringToSign(lib, s, timestamp, c'))
  {
    var c, c' := CanonicalRequest(lib, s.s3, f, h), CanonicalRequest(lib, s.s3, f', h');
    var t, t' := StringToSign(lib, s, timestamp, c), StringToSign(lib, s, timestamp, c');
    var front := AuthorizationEnds(lib, s, f, h, timestamp);
    var front' := AuthorizationEnds(lib, s, f', h', timestamp);
    AfterLast('=', front, Signature(lib, s, timestamp, t), front', Signature(lib, s, timestamp, t'));
    if t == t' { TextsEnd(lib, s, timestamp, c, c'); }
  }

  lemma TextsEnd(lib: Library, s: Signer, timestamp: string, c: string, c': string)
    requires StringToSign(lib, s, timestamp, c) == StringToSign(lib, s, timestamp, c')
    ensures lib.sha256(c) == lib.sha256(c')
  {
    var parts := ["AWS4-HMAC-SHA256", timestamp, Scope(s, timestamp)];
    var front := Join("\n", parts) + "\n";
    TextIs(lib, s, timestamp, c);
    TextIs(lib, s, timestamp, c');
    assert (front + lib.sha256(c))[|front|..] == lib.sha256(c);
    assert (front + lib.sha256(c'))[|front|..] == lib.sha256(c');
  }

  lemma TextIs(lib: Library, s: Signer, timestamp: string, c: string)
    ensures StringToSign(lib, s, timestamp, c) ==
            Join("\n", ["AWS4-HMAC-SHA256", timestamp, Scope(s, timestamp)]) + "\n" + lib.sha256(c)
  {
    var parts := ["AWS4-HMAC-SHA256", timestamp, Scope(s, timestamp)];
    JoinConcat("\n", parts, [lib.sha256(c)]);
    assert parts + [lib.sha256(c)] == ["AWS4-HMAC-SHA256", timestamp, Scope(s, timestamp), lib.sha256(c)];
    assert Join("\n", [lib.sha256(c)]) == lib.sha256(c);
  }

  /** Everything that is signed of two requests is the same. */
  ghost predicate SameParts(lib: Library, s3: bool, f: Fixed, h: seq<Header>, f': Fixed, h': seq<Header>) {
    && f.verb == f'.verb && CanonicalPath(lib, s3, f) == CanonicalPath(lib, s3, f') && Query(lib, f) == Query(lib, f')
    && HeaderLines(h, f.host) == HeaderLines(h', f'.host) && NamesLine(f, h) == NamesLine(f', h')
    && ContentHash(lib, s3, f, h) == ContentHash(lib, s3, f', h')
  }

  /**
   What a signature binds: requests that one signer signs alike at one time agree in all parts, or there is a collision.
   */
  lemma SignatureBinds(lib: Library, s: Signer, timestamp: string, f: Fixed, h: seq<Header>, f': Fixed, h': seq<Header>)
    requires Authorization(lib, s, f, h, timestamp) == Authorization(lib, s, f', h', timestamp)
    requires forall key, text :: '=' !in lib.hexHmac(key, text)
    requires Clean(lib, s.s3, f, h) && Clean(lib, s.s3, f', h')
    ensures var (key, c, c') := (SigningKey(lib, s, timestamp), CanonicalRequest(lib, s.s3, f, h),
                                 CanonicalRequest(lib, s.s3, f', h'));
            || SameParts(lib, s.s3, f, h, f', h') || Collide(lib, key, c, c')
            || Collide(lib, key, StringToSign(lib, s, timestamp, c), StringToSign(lib, s, timestamp, c'))
  {
    SameCanonical(lib, s, timestamp, f, h, f', h');
    if CanonicalRequest(lib, s.s3, f, h) == CanonicalRequest(lib, s.s3, f', h') {
      SameRequests(lib, s.s3, f, h, f', h');
    }
  }

  lemma SameRequests(lib: Library, s3: bool, f: Fixed, h: seq<Header>, f': Fixed, h': seq<Header>)
    requires Clean(lib, s3, f, h) && Clean(lib, s3, f', h')
    requires CanonicalRequest(lib, s3, f, h) == CanonicalRequest(lib, s3, f', h')
    ensures SameParts(lib, s3, f, h, f', h')
  {
    CanonicalLines(lib, s3, f, h);
    CanonicalLines(lib, s3, f', h');
    SameLines(Above(lib, s3, f), HeaderLines(h, f.host), Beneath(lib, s3, f, h),
              Above(lib, s3, f'), HeaderLines(h', f'.host), Beneath(lib, s3, f', h'));
  }

  lemma SameLines(a: seq<string>, x: seq<string>, b: seq<string>, a': seq<string>, x': seq<string>, b': seq<string>)
    requires |a| == |a'| == 3 && |b| == |b'| == 2 && a + x + [""] + b == a' + x' + [""] + b'
    ensures a[0] == a'[0] && a[1] == a'[1] && a[2] == a'[2] && x == x' && b[0] == b'[0] && b[1] == b'[1]
  {
    var all, n := a + x + [""] + b, |x|;
    assert |x| == |x'|;
    assert all[..3] == a && (a' + x' + [""] + b')[..3] == a';
    assert all[3..3 + n] == x && (a' + x' + [""] + b')[3..3 + n] == x';
    assert all[4 + n..] == b && (a' + x' + [""] + b')[4 + n..] == b';
  }

  // ----- what the parts say ---------------------------------------------------------------------

  predicate CleanPair(p: Pair) {
    '&' !in p.key && '&' !in p.value && '=' !in p.key
  }

  lemma PairBack(p: Pair)
    requires '=' !in p.key
    ensures Partition(p.key + "=" + p.value) == p
    decreases |p.key|
  {
    var piece := p.key + "=" + p.value;
    if p.key != "" {
      var rest := Pair(p.key[1..], p.value);
      PairBack(rest);
      assert piece[0] == p.key[0] && piece[1..] == rest.key + "=" + rest.value;
      assert p.key == [p.key[0]] + rest.key;
    } else {
      assert piece == "=" + p.value && piece[1..] == p.value;
    }
  }

  /** The query of the canonical request is the sorted pairs, which can be read back from it. */
  lemma QueryReads(pairs: seq<Pair>)
    requires pairs != [] && forall i :: 0 <= i < |pairs| ==> CleanPair(pairs[i])
    ensures Partitioned(Split('&', CanonicalPairs(pairs))) == Sorted(PairLe, pairs)
  {
    var sorted := Sorted(PairLe, pairs);
    PairsTotal();
    SortedIs(PairLe, pairs);
    assert |sorted| == |multiset(sorted)| == |pairs|;
    forall i | 0 <= i < |sorted| ensures CleanPair(sorted[i]) {
      assert sorted[i] in multiset(pairs);
    }
    RenderedBack(sorted);
  }

  lemma RenderedBack(pairs: seq<Pair>)
    requires pairs != [] && forall i :: 0 <= i < |pairs| ==> CleanPair(pairs[i])
    ensures Partitioned(Split('&', Join("&", Rendered(pairs)))) == pairs
  {
    forall i | 0 <= i < |pairs| ensures '&' !in Rendered(pairs)[i] && Partition(Rendered(pairs)[i]) == pairs[i] {
      PairBack(pairs[i]);
    }
    SplitJoin('&', Rendered(pairs));
  }

  /** The pairs that the canonical query has between its separators. */
  function QueryPairs(lib: Library, f: Fixed): seq<Pair> {
    Partitioned(Split('&', Query(lib, f)))
  }

  /** The params, percent-encoded, or else the pairs of the URL's own query. */
  function GivenPairs(lib: Library, f: Fixed): seq<Pair> {
    var encoded := seq(|f.params|, i requires 0 <= i < |f.params| =>
      Pair(lib.quote(f.params[i].key), lib.quote(f.params[i].value)));
    if f.params != [] then encoded else Partitioned(Split('&', f.query))
  }

  /** The canonical query reads as the pairs given, in the order of key and value. */
  lemma QuerySays(lib: Library, f: Fixed)
    requires forall s :: '&' !in lib.quote(s) && '=' !in lib.quote(s)
    ensures multiset(QueryPairs(lib, f)) == multiset(GivenPairs(lib, f))
    ensures forall i, j :: 0 <= i < j < |QueryPairs(lib, f)| ==>
              var (p, q) := (QueryPairs(lib, f)[i], QueryPairs(lib, f)[j]);
              StringLe(p.key, q.key) && (p.key == q.key ==> StringLe(p.value, q.value))
  {
    var sorted := Sorted(PairLe, GivenPairs(lib, f));
    QueryPairsSorted(lib, f);
    PairsTotal();
    SortedIs(PairLe, GivenPairs(lib, f));
    forall i, j | 0 <= i < j < |sorted|
      ensures StringLe(sorted[i].key, sorted[j].key)
              && (sorted[i].key == sorted[j].key ==> StringLe(sorted[i].value, sorted[j].value))
    {
      InPairOrder(sorted[i], sorted[j]);
    }
  }

  lemma InPairOrder(p: Pair, q: Pair)
    requires PairLe(p, q)
    ensures StringLe(p.key, q.key) && (p.key == q.key ==> StringLe(p.value, q.value))
  {
    StringLeOne(p.key, q.key);
  }

  lemma QueryPairsSorted(lib: Library, f: Fixed)
    requires forall s :: '&' !in lib.quote(s) && '=' !in lib.quote(s)
    ensures QueryPairs(lib, f) == Sorted(PairLe, GivenPairs(lib, f))
  {
    if f.params == [] {
      if f.query == "" { OnePair(Pair("", "")); } else { PiecesClean(f.query); QueryReads(GivenPairs(lib, f)); }
    } else {
      EncodedClean(lib.quote, f.params);
      assert GivenPairs(lib, f) == Encoded(lib.quote, f.params);
      QueryReads(Encoded(lib.quote, f.params));
    }
  }

  lemma OnePair(p: Pair)
    ensures Sorted(PairLe, [p]) == [p]
  {
    assert Sorted(PairLe, []) == [];
  }

  lemma EncodedClean(quote: string -> string, params: seq<Pair>)
    requires forall s :: '&' !in quote(s) && '=' !in quote(s)
    ensures forall i :: 0 <= i < |params| ==> CleanPair(Encoded(quote, params)[i])
  {
    forall i | 0 <= i < |params| ensures CleanPair(Encoded(quote, params)[i]) {
      var (k, v) := (quote(params[i].key), quote(params[i].value));
      assert '&' !in k && '=' !in k && '&' !in v;
    }
  }

  lemma PiecesClean(query: string)
    ensures forall i :: 0 <= i < |Split('&', query)| ==> CleanPair(Partitioned(Split('&', query))[i])
  {
    var pieces := Split('&', query);
    JoinSplit('&', query);
    forall i | 0 <= i < |pieces| ensures CleanPair(Partitioned(pieces)[i]) { PieceClean(pieces[i]); }
  }

  lemma {:induction false} PieceClean(piece: string)
    requires '&' !in piece
    ensures CleanPair(Partition(piece))
  {
    if piece != "" && piece[0] != '=' { PieceClean(piece[1..]); }
  }

  /** So two lists of pairs have one canonical query only if they are the same but for their order. */
  lemma QueryBinds(a: seq<Pair>, b: seq<Pair>)
    requires CanonicalPairs(a) == CanonicalPairs(b) && a != [] && b != []
    requires (forall i :: 0 <= i < |a| ==> CleanPair(a[i])) && (forall i :: 0 <= i < |b| ==> CleanPair(b[i]))
    ensures multiset(a) == multiset(b)
  {
    QueryReads(a);
    QueryReads(b);
    PairsTotal();
    SortedIs(PairLe, a);
    SortedIs(PairLe, b);
  }

  /** The values of a signed name, trimmed and joined by commas. */
  function SignedValue(h: seq<Header>, host: string, name: string): string {
    Join(",", Mapped(Trimmed, if Values(h, name) == [] then [host] else Values(h, name)))
  }

  /** The lines of the headers tell the signed names and the value of each, if no name has a colon in it. */
  lemma HeaderLinesBind(h: seq<Header>, host: string, h': seq<Header>, host': string)
    requires HeaderLines(h, host) == HeaderLines(h', host')
    requires forall n :: n in SignedNames(h, host) || n in SignedNames(h', host') ==> ':' !in n
    ensures SignedNames(h, host) == SignedNames(h', host')
    ensures forall n :: n in SignedNames(h, host) ==> SignedValue(h, host, n) == SignedValue(h', host', n)
  {
    var names, names' := SignedNames(h, host), SignedNames(h', host');
    assert |names| == |HeaderLines(h, host)| == |names'|;
    forall i | 0 <= i < |names|
      ensures names[i] == names'[i] && SignedValue(h, host, names[i]) == SignedValue(h', host', names[i])
    {
      HeaderLineIs(h, host, i);
      HeaderLineIs(h', host', i);
      assert names[i] in names && names'[i] in names';
      BeforeFirst(':', names[i], SignedValue(h, host, names[i]), names'[i], SignedValue(h', host', names'[i]));
    }
  }

  lemma BeforeFirst(c: char, a: string, x: string, b: string, y: string)
    requires c !in a && c !in b && a + [c] + x == b + [c] + y
    ensures a == b && x == y
  {
    SplitBefore(c, a, [c] + x);
    SplitBefore(c, b, [c] + y);
    assert a + ([c] + x) == a + [c] + x && b + ([c] + y) == b + [c] + y;
    assert ([c] + x)[1..] == x && ([c] + y)[1..] == y;
    assert a + "" == a && b + "" == b;
    assert Split(c, [c] + x)[0] == "" && Split(c, [c] + y)[0] == "";
    assert Split(c, a + [c] + x)[0] == a && Split(c, b + [c] + y)[0] == b;
    assert (a + [c] + x)[|a| + 1..] == x && (b + [c] + y)[|b| + 1..] == y;
  }

  /** White space at the ends of a value, and how much of it there is between words, does not matter: the words do. */
  lemma {:induction false} TrimmedWords(value: string)
    ensures Words(Trimmed(value)) == Words(value)
  {
    WordsPlain(value);
    WordsLong(value);
    JoinedWords(Words(value));
  }

  lemma {:induction false} WordsLong(s: string)
    ensures forall i :: 0 <= i < |Words(s)| ==> Words(s)[i] != ""
    decreases |s|
  {
    if s != "" {
      if IsSpace(s[0]) { WordsLong(s[1..]); } else { WordsLong(s[Word(s)..]); }
    }
  }

  predicate IsWord(w: string) {
    w != "" && forall j :: 0 <= j < |w| ==> !IsSpace(w[j])
  }

  lemma {:induction false} WordThen(w: string, rest: string)
    requires (forall j :: 0 <= j < |w| ==> !IsSpace(w[j])) && (rest != "" ==> IsSpace(rest[0]))
    ensures Word(w + rest) == |w|
  {
    if w == "" {
      assert w + rest == rest;
    } else {
      assert (w + rest)[1..] == w[1..] + rest;
      WordThen(w[1..], rest);
    }
  }

  lemma {:induction false} JoinedWords(words: seq<string>)
    requires forall i :: 0 <= i < |words| ==> IsWord(words[i])
    ensures Words(Join(" ", words)) == words
  {
    if words != [] {
      var w := words[0];
      var rest := if |words| == 1 then "" else " " + Join(" ", words[1..]);
      assert Join(" ", words) == w + rest by {
        if |words| == 1 { assert w + "" == w; } else { assert w + " " + Join(" ", words[1..]) == w + rest; }
      }
      WordThen(w, rest);
      assert (w + rest)[..|w|] == w && (w + rest)[|w|..] == rest;
      if |words| > 1 {
        JoinedWords(words[1..]);
        assert rest[1..] == Join(" ", words[1..]);
      }
      assert words == [w] + words[1..];
    }
  }

  /** The line of names is the signed names, joined by semicolons, if none has white space at an end. */
  lemma NamesLineIs(f: Fixed, h: seq<Header>)
    requires forall n :: n in SignedNames(h, f.host) ==> n != "" && !IsSpace(n[0]) && !IsSpace(n[|n| - 1])
    ensures NamesLine(f, h) == Join(";", SignedNames(h, f.host))
  {
    var signed := HeadersToSign(h, f.host);
    ToSignLower(h, f.host);
    StringsTotal();
    SortedIs(StringLe, Names(signed));
    var names := Names(signed);
    forall i | 0 <= i < |names| ensures SignedName(names[i]) == names[i] {
      assert names[i] in multiset(SignedNames(h, f.host));
      NamesLower(signed, i);
      NameStays(names[i]);
    }
    MappedSelf(SignedName, names);
  }

  lemma NameStays(n: string)
    requires Lower(n) == n && n != "" && !IsSpace(n[0]) && !IsSpace(n[|n| - 1])
    ensures SignedName(n) == n
  {
  }

  lemma MappedSelf(f: string -> string, s: seq<string>)
    requires forall i :: 0 <= i < |s| ==> f(s[i]) == s[i]
    ensures Mapped(f, s) == s
  {
  }

  lemma {:induction false} NamesLower(headers: seq<Header>, i: nat)
    requires LowerNames(headers) && i < |Names(headers)|
    ensures Lower(Names(headers)[i]) == Names(headers)[i]
  {
    var rest := Names(headers[1..]);
    if headers[0].name in rest {
      NamesLower(headers[1..], i);
    } else if i > 0 {
      NamesLower(headers[1..], i - 1);
    }
  }

  /**
   When the body is signed. A trailing checksum takes its place; otherwise a plain signer leaves it out over https if
   payload signing is off, and an S3 one if the explicit setting is off, or if there is none and over https a checksum
   header vouches for a body that is streamed or not to be signed.
   */
  ghost predicate BodyMatters(s3: bool, f: Fixed, h: seq<Header>) {
    var vouched := Values(h, if f.checksumHeader.Some? then Lower(f.checksumHeader.value) else "content-md5") != [];
    && !f.trailer
    && (!s3 ==> !f.https || f.payloadSigning)
    && (s3 && f.s3Signing.Some? ==> f.s3Signing.value)
    && (s3 && f.s3Signing.None? && f.https && vouched ==> !f.streaming && f.payloadSigning)
  }

  /** Two requests that differ in the body have one payload hash exactly if the body is not signed. */
  lemma BodyBinds(lib: Library, s3: bool, f: Fixed, h: seq<Header>, body: string)
    requires lib.sha256("") == EMPTY_SHA256 && forall x, y :: lib.sha256(x) == lib.sha256(y) ==> x == y
    ensures Payload(lib, s3, f, h) == Payload(lib, s3, f.(body := body), h) <==>
              f.body == body || !BodyMatters(s3, f, h)
  {
    assert Lower("Content-MD5") == "content-md5";
  }

  /** The payload says whether the body is signed, and if it is not, why. */
  lemma PayloadSays(lib: Library, s3: bool, f: Fixed, h: seq<Header>)
    requires forall x :: lib.sha256(x) != STREAMING_UNSIGNED && lib.sha256(x) != UNSIGNED_PAYLOAD
    requires lib.sha256("") == EMPTY_SHA256
    ensures Payload(lib, s3, f, h) == "STREAMING-UNSIGNED-PAYLOAD-TRAILER" <==> f.trailer
    ensures Payload(lib, s3, f, h) == "UNSIGNED-PAYLOAD" <==> !f.trailer && !BodyMatters(s3, f, h)
    ensures BodyMatters(s3, f, h) ==> Payload(lib, s3, f, h) == lib.sha256(f.body)
  {
    assert Lower("Content-MD5") == "content-md5";
    assert STREAMING_UNSIGNED[0] == 'S' && UNSIGNED_PAYLOAD[0] == 'U';
  }

  /** A hash in the request's own header is the one that is signed. */
  lemma HashFromHeader(lib: Library, s3: bool, f: Fixed, h: seq<Header>)
    requires Values(h, "x-amz-content-sha256") != []
    ensures ContentHash(lib, s3, f, h) == Values(h, "x-amz-content-sha256")[0]
  {
    HeaderNames();
  }

  // ----- the key, and the sent request ----------------------------------------------------------

  /** Keyed hashes of the parts, each under the one before. */
  function Chain(lib: Library, key: string, parts: seq<string>): string
    decreases |parts|
  {
    if parts == [] then key else Chain(lib, lib.hmac(key, parts[0]), parts[1..])
  }

  /** The key takes in the parts of the scope, in the order in which the scope has them. */
  lemma KeyFollowsScope(lib: Library, s: Signer, timestamp: string)
    requires '/' !in Day(timestamp) && '/' !in s.region && '/' !in s.service
    ensures SigningKey(lib, s, timestamp) ==
            Chain(lib, "AWS4" + s.credentials.secretKey, Split('/', Scope(s, timestamp)))
  {
    ScopeParts(s, timestamp);
    var secret := "AWS4" + s.credentials.secretKey;
    var day := lib.hmac(secret, Day(timestamp));
    ChainTwo(lib, secret, Day(timestamp), s.region, [s.service, "aws4_request"]);
    ChainTwo(lib, lib.hmac(day, s.region), s.service, "aws4_request", []);
    assert [s.service, "aws4_request"] + [] == [s.service, "aws4_request"];
    assert [Day(timestamp), s.region] + [s.service, "aws4_request"] == Split('/', Scope(s, timestamp));
  }

  lemma ChainTwo(lib: Library, key: string, x: string, y: string, rest: seq<string>)
    ensures Chain(lib, key, [x, y] + rest) == Chain(lib, lib.hmac(lib.hmac(key, x), y), rest)
  {
    var parts := [x, y] + rest;
    assert parts[1..] == [y] + rest && parts[1..][1..] == rest;
    assert Chain(lib, key, parts) == Chain(lib, lib.hmac(key, x), parts[1..]);
  }

  /** The keyed hash does not tell two keys apart, or not two texts. */
  ghost predicate KeysCollide(lib: Library) {
    || (exists k, k', x :: k != k' && lib.hmac(k, x) == lib.hmac(k', x))
    || (exists k, k', x :: k != k' && lib.hexHmac(k, x) == lib.hexHmac(k', x))
    || (exists k, x, y :: x != y && lib.hmac(k, x) == lib.hmac(k, y))
  }

  /** Signers or times that differ in just one of secret key, day, region and service sign every text differently. */
  lemma KeyBinds(lib: Library, s: Signer, timestamp: string, s': Signer, timestamp': string, text: string)
    requires Signature(lib, s, timestamp, text) == Signature(lib, s', timestamp', text) && !KeysCollide(lib)
    ensures var (secret, day, region, service) := (s.credentials.secretKey == s'.credentials.secretKey,
                                                   Day(timestamp) == Day(timestamp'), s.region == s'.region,
                                                   s.service == s'.service);
            && (day && region && service ==> secret) && (secret && region && service ==> day)
            && (secret && day && service ==> region) && (secret && day && region ==> service)
  {
    var a, a' := "AWS4" + s.credentials.secretKey, "AWS4" + s'.credentials.secretKey;
    assert a[4..] == s.credentials.secretKey && a'[4..] == s'.credentials.secretKey;
    var b, b' := lib.hmac(a, Day(timestamp)), lib.hmac(a', Day(timestamp'));
    var c, c' := lib.hmac(b, s.region), lib.hmac(b', s'.region);
    var d, d' := lib.hmac(c, s.service), lib.hmac(c', s'.service);
    assert SigningKey(lib, s, timestamp) == lib.hmac(d, "aws4_request");
    assert SigningKey(lib, s', timestamp') == lib.hmac(d', "aws4_request");
    assert d == d';
  }

  /** The request that is sent carries one Authorization header: the signature of the request without it. */
  lemma Verifies(lib: Library, s: Signer, r: Request, now: string)
    ensures var x := Signing.Signed(lib, s, r, now);
            && x.fixed == r.fixed && x.timestamp == now
            && Values(x.headers, "authorization") ==
               [Authorization(lib, s, x.fixed, Without(x.headers, {"authorization"}), now)]
  {
    var h := Prepared(lib, s, r.fixed, r.headers, now);
    var auth := Header("Authorization", Authorization(lib, s, r.fixed, h, now));
    PreparedHasNone(lib, s, r.fixed, r.headers, now);
    LastAlone(h, auth);
  }

  lemma LastAlone(h: seq<Header>, auth: Header)
    requires Values(h, "authorization") == [] && auth.name == "Authorization"
    ensures Without(h + [auth], {"authorization"}) == h && Values(h + [auth], "authorization") == [auth.value]
  {
    HeaderNames();
    WithoutMissing(h, "authorization");
    WithoutConcat(h, [auth], {"authorization"});
    WithoutOne(auth, {"authorization"});
    ValuesConcat(h, [auth], "authorization");
    assert [auth][1..] == [] && h + [] == h;
  }

  lemma PreparedHasNone(lib: Library, s: Signer, f: Fixed, h: seq<Header>, now: string)
    ensures Values(Prepared(lib, s, f, h, now), "authorization") == []
  {
    PreparedForm(lib, s, f, h, now);
    var kept, dated := Kept(lib, s, f, h, now), Has(h, "Date");
    WithoutValues(h, Cleared(s, f), "authorization");
    StampsNames(lib, s, f, dated, now, kept);
    ValuesConcat(Without(h, Cleared(s, f)), Stamps(lib, s, dated, now), "authorization");
    ValuesConcat(kept, HashHeaders(lib, s, f, kept), "authorization");
  }

  lemma StampsNames(lib: Library, s: Signer, f: Fixed, dated: bool, now: string, kept: seq<Header>)
    ensures Values(Stamps(lib, s, dated, now), "authorization") == []
    ensures Values(HashHeaders(lib, s, f, kept), "authorization") == []
  {
    HeaderNames();
    var date := DateHeader(lib, dated, now);
    ValuesConcat([date], TokenHeaders(s), "authorization");
    assert [date][1..] == [];
    assert Values([date], "authorization") == [];
  }
}
