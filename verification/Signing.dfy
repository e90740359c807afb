/** Signing a request with Signature Version 4, also again after it has been signed before. */
module Signing {
  import opened Outcomes
  import opened Sorting
  import Text
  import opened Canonical

  const EMPTY_SHA256: string := "e3b0c44298fc1c149afbf4c8996fb92427ae41e4649b934ca495991b7852b855"
  const UNSIGNED_PAYLOAD: string := "UNSIGNED-PAYLOAD"
  const STREAMING_UNSIGNED: string := "STREAMING-UNSIGNED-PAYLOAD-TRAILER"

  /**
   Hashing, percent-encoding, path normalisation and date formatting are kept as functions about which nothing is known.
   */
  datatype Library = Library(
    sha256: string -> string, hmac: (string, string) -> string, hexHmac: (string, string) -> string,
    quote: string -> string, normalPath: string -> string, formatDate: string -> string)

  datatype Credentials = Credentials(accessKey: string, secretKey: string, token: string)

  datatype Signer = Signer(credentials: Credentials, region: string, service: string, s3: bool)

  /**
   What signing reads and does not change; verb is in upper case, s3Signing is the explicit S3 setting, checksumHeader
   the algorithm's header.
   */
  datatype Fixed = Fixed(
    verb: string, https: bool, host: string, path: string, query: string, params: seq<Pair>, body: string,
    trailer: bool, payloadSigning: bool, s3Signing: Option<bool>, checksumHeader: Option<string>, streaming: bool)

  datatype Request = Request(fixed: Fixed, headers: seq<Header>, timestamp: string)

  // ----- the header list ------------------------------------------------------------------------

  /** The headers without those of some names, given in lower case. */
  function Without(h: seq<Header>, names: set<string>): seq<Header> {
    if h == [] then []
    else (if Lower(h[0].name) in names then [] else [h[0]]) + Without(h[1..], names)
  }

  predicate Has(h: seq<Header>, name: string) {
    Values(h, Lower(name)) != []
  }

  /** del, which removes every header of the name, and then an assignment, which appends one. */
  function Put(h: seq<Header>, name: string, value: string): seq<Header> {
    Without(h, {Lower(name)}) + [Header(name, value)]
  }

  // ----- what is signed -------------------------------------------------------------------------

  function ShouldSign(f: Fixed): bool {
    !f.https || f.payloadSigning
  }

  function ShouldSignS3(f: Fixed, h: seq<Header>): bool {
    var checksum := if f.checksumHeader.Some? then f.checksumHeader.value else "Content-MD5";
    if f.s3Signing.Some? then f.s3Signing.value
    else if !f.https || !Has(h, checksum) then true
    else !f.streaming && ShouldSign(f)
  }

  function Payload(lib: Library, s3: bool, f: Fixed, h: seq<Header>): string {
    if f.trailer then STREAMING_UNSIGNED
    else if !(if s3 then ShouldSignS3(f, h) else ShouldSign(f)) then UNSIGNED_PAYLOAD
    else if f.body == "" then EMPTY_SHA256 else lib.sha256(f.body)
  }

  function ContentHash(lib: Library, s3: bool, f: Fixed, h: seq<Header>): string {
    if Has(h, "X-Amz-Content-SHA256") then Values(h, Lower("X-Amz-Content-SHA256"))[0] else Payload(lib, s3, f, h)
  }

  function CanonicalRequest(lib: Library, s3: bool, f: Fixed, h: seq<Header>): string {
    var signed := HeadersToSign(h, f.host);
    Text.Join("\n", [f.verb, if s3 then f.path else lib.normalPath(f.path),
                     CanonicalQuery(lib.quote, f.params, f.query),
                    CanonicalHeaders(signed) + "\n", SignedHeaders(signed), ContentHash(lib, s3, f, h)])
  }

  function Day(timestamp: string): string {
    if |timestamp| < 8 then timestamp else timestamp[..8]
  }

  function Scope(s: Signer, timestamp: string): string {
    Text.Join("/", [Day(timestamp), s.region, s.service, "aws4_request"])
  }

  function StringToSign(lib: Library, s: Signer, timestamp: string, canonical: string): string {
    Text.Join("\n", ["AWS4-HMAC-SHA256", timestamp, Scope(s, timestamp), lib.sha256(canonical)])
  }

  function SigningKey(lib: Library, s: Signer, timestamp: string): string {
    var day := lib.hmac("AWS4" + s.credentials.secretKey, Day(timestamp));
    var region := lib.hmac(day, s.region);
    lib.hmac(lib.hmac(region, s.service), "aws4_request")
  }

  function Signature(lib: Library, s: Signer, timestamp: string, text: string): string {
    lib.hexHmac(SigningKey(lib, s, timestamp), text)
  }

  function Authorization(lib: Library, s: Signer, f: Fixed, h: seq<Header>, timestamp: string): string {
    var text := StringToSign(lib, s, timestamp, CanonicalRequest(lib, s.s3, f, h));
    Text.Join(", ", ["AWS4-HMAC-SHA256 Credential=" + s.credentials.accessKey + "/" + Scope(s, timestamp),
                    "SignedHeaders=" + SignedHeaders(HeadersToSign(h, f.host)),
                    "Signature=" + Signature(lib, s, timestamp, text)])
  }

  // ----- signing --------------------------------------------------------------------------------

  function Dated(lib: Library, h: seq<Header>, timestamp: string): seq<Header> {
    if Has(h, "Date") then Without(Put(h, "Date", lib.formatDate(timestamp)), {Lower("X-Amz-Date")})
    else Put(h, "X-Amz-Date", timestamp)
  }

  function Hashed(lib: Library, s: Signer, f: Fixed, h: seq<Header>): seq<Header> {
    var h3 := if !f.payloadSigning then Put(h, "X-Amz-Content-SHA256", UNSIGNED_PAYLOAD) else h;
    if s.s3 then
      var bare := Without(h3, {Lower("X-Amz-Content-SHA256")});
      bare + [Header("X-Amz-Content-SHA256", Payload(lib, true, f, bare))]
    else h3
  }

  function Prepared(lib: Library, s: Signer, f: Fixed, h: seq<Header>, timestamp: string): seq<Header> {
    var h1 := Dated(lib, Without(h, {Lower("Authorization")}), timestamp);
    var h2 := if s.credentials.token != "" then Put(h1, "X-Amz-Security-Token", s.credentials.token) else h1;
    Hashed(lib, s, f, h2)
  }

  function Signed(lib: Library, s: Signer, r: Request, now: string): Request {
    var h := Prepared(lib, s, r.fixed, r.headers, now);
    Request(r.fixed, h + [Header("Authorization", Authorization(lib, s, r.fixed, h, now))], now)
  }

  class SignableRequest {
    const fixed: Fixed
    var headers: seq<Header>
    var timestamp: string

    function State(): Request
      reads this
    {
      Request(fixed, headers, timestamp)
    }

    constructor (r: Request)
      ensures State() == r
    {
      fixed, headers, timestamp := r.fixed, r.headers, r.timestamp;
    }

    method Delete(name: string)
      modifies this`headers
      ensures headers == Without(old(headers), {Lower(name)})
    {
      var h, lower, kept: seq<Header> := headers, Lower(name), [];
      assert h[0..] == h && h[|h|..] == [];
      for i := 0 to |h|
        invariant kept + Without(h[i..], {lower}) == Without(h, {lower})
      {
        WithoutFrom(h, i, lower);
        assert kept + ([h[i]] + Without(h[i + 1..], {lower})) == kept + [h[i]] + Without(h[i + 1..], {lower});
        if Lower(h[i].name) != lower { kept := kept + [h[i]]; }
      }
      headers := kept;
    }

    method Assign(name: string, value: string)
      modifies this`headers
      ensures headers == old(headers) + [Header(name, value)]
    {
      headers := headers + [Header(name, value)];
    }

    /** A header of that name, if there is one, is deleted first. */
    method Replace(name: string, value: string)
      modifies this`headers
      ensures headers == Put(old(headers), name, value)
    {
      if Has(headers, name) { Delete(name); } else { WithoutMissing(headers, Lower(name)); }
      Assign(name, value);
    }

    method SetDateHeaders(lib: Library)
      modifies this`headers
      ensures headers == Dated(lib, old(headers), timestamp)
    {
      if Has(headers, "Date") {
        Delete("Date");
        Assign("Date", lib.formatDate(timestamp));
        if Has(headers, "X-Amz-Date") { Delete("X-Amz-Date"); } else { WithoutMissing(headers, Lower("X-Amz-Date")); }
      } else {
        Replace("X-Amz-Date", timestamp);
      }
    }

    method ModifyBeforeSigning(lib: Library, s: Signer)
      modifies this`headers
      ensures headers == Prepared(lib, s, fixed, old(headers), timestamp)
    {
      if Has(headers, "Authorization") { Delete("Authorization"); }
      else { WithoutMissing(headers, Lower("Authorization")); }
      SetDateHeaders(lib);
      if s.credentials.token != "" { Replace("X-Amz-Security-Token", s.credentials.token); }
      if !fixed.payloadSigning { Replace("X-Amz-Content-SHA256", UNSIGNED_PAYLOAD); }
      if s.s3 {
        if Has(headers, "X-Amz-Content-SHA256") { Delete("X-Amz-Content-SHA256"); }
        else { WithoutMissing(headers, Lower("X-Amz-Content-SHA256")); }
        Assign("X-Amz-Content-SHA256", Payload(lib, true, fixed, headers));
      }
    }

    /** add_auth with credentials; now is the current time as the timestamp format gives it. */
    method AddAuth(lib: Library, s: Signer, now: string)
      modifies this
      ensures State() == Signed(lib, s, old(State()), now)
    {
      timestamp := now;
      ModifyBeforeSigning(lib, s);
      Assign("Authorization", Authorization(lib, s, fixed, headers, timestamp));
    }
  }

  lemma WithoutFrom(h: seq<Header>, i: nat, name: string)
    requires i < |h|
    ensures Without(h[i..], {name}) ==
            (if Lower(h[i].name) == name then [] else [h[i]]) + Without(h[i + 1..], {name})
  {
    assert h[i..][0] == h[i] && h[i..][1..] == h[i + 1..];
  }

  lemma {:induction false} WithoutMissing(h: seq<Header>, name: string)
    requires Values(h, name) == []
    ensures Without(h, {name}) == h
  {
    if h != [] { WithoutMissing(h[1..], name); }
  }

  lemma {:induction false} WithoutConcat(a: seq<Header>, b: seq<Header>, names: set<string>)
    ensures Without(a + b, names) == Without(a, names) + Without(b, names)
  {
    if a == [] {
      assert a + b == b;
    } else {
      assert (a + b)[1..] == a[1..] + b;
      WithoutConcat(a[1..], b, names);
    }
  }

  lemma {:induction false} WithoutBoth(h: seq<Header>, a: set<string>, b: set<string>)
    ensures Without(Without(h, a), b) == Without(h, a + b)
  {
    if h != [] {
      WithoutBoth(h[1..], a, b);
      var first := if Lower(h[0].name) in a then [] else [h[0]];
      WithoutConcat(first, Without(h[1..], a), b);
    }
  }

  lemma {:induction false} WithoutValues(h: seq<Header>, names: set<string>, name: string)
    ensures Values(Without(h, names), name) == if name in names then [] else Values(h, name)
  {
    if h != [] {
      WithoutValues(h[1..], names, name);
      var first := if Lower(h[0].name) in names then [] else [h[0]];
      ValuesConcat(first, Without(h[1..], names), name);
    }
  }

  // ----- signing again --------------------------------------------------------------------------

  lemma HeaderNames()
    ensures Lower("Authorization") == "authorization" && Lower("Date") == "date" && Lower("X-Amz-Date") == "x-amz-date"
    ensures Lower("X-Amz-Security-Token") == "x-amz-security-token"
    ensures Lower("X-Amz-Content-SHA256") == "x-amz-content-sha256"
  {
    HashHeaderName();
  }

  lemma HashHeaderName()
    ensures Lower("X-Amz-Content-SHA256") == "x-amz-content-sha256"
  {
  }

  function TokenNames(s: Signer): set<string> {
    if s.credentials.token != "" then {"x-amz-security-token"} else {}
  }

  predicate HasHash(s: Signer, f: Fixed) {
    s.s3 || !f.payloadSigning
  }

  function HashNames(s: Signer, f: Fixed): set<string> {
    if HasHash(s, f) then {"x-amz-content-sha256"} else {}
  }

  /** The names of all headers that signing deletes. */
  function Cleared(s: Signer, f: Fixed): set<string> {
    {"authorization", "date", "x-amz-date"} + TokenNames(s) + HashNames(s, f)
  }

  function DateHeader(lib: Library, dated: bool, timestamp: string): Header {
    if dated then Header("Date", lib.formatDate(timestamp)) else Header("X-Amz-Date", timestamp)
  }

  function TokenHeaders(s: Signer): seq<Header> {
    if s.credentials.token != "" then [Header("X-Amz-Security-Token", s.credentials.token)] else []
  }

  /** What signing appends in front of the payload hash. */
  function Stamps(lib: Library, s: Signer, dated: bool, timestamp: string): seq<Header> {
    [DateHeader(lib, dated, timestamp)] + TokenHeaders(s)
  }

  function HashHeaders(lib: Library, s: Signer, f: Fixed, h: seq<Header>): seq<Header> {
    if s.s3 then [Header("X-Amz-Content-SHA256", Payload(lib, true, f, h))]
    else if !f.payloadSigning then [Header("X-Amz-Content-SHA256", UNSIGNED_PAYLOAD)] else []
  }

  lemma WithoutOne(h: Header, names: set<string>)
    ensures Without([h], names) == if Lower(h.name) in names then [] else [h]
  {
  }

  lemma DatedForm(lib: Library, h: seq<Header>, timestamp: string)
    ensures var clear := Without(h, {"authorization"});
            Dated(lib, clear, timestamp) ==
              Without(h, {"authorization", "date", "x-amz-date"}) + [DateHeader(lib, Has(h, "Date"), timestamp)]
  {
    HeaderNames();
    var clear := Without(h, {"authorization"});
    WithoutValues(h, {"authorization"}, "date");
    if Has(h, "Date") {
      WithoutBoth(h, {"authorization"}, {"date"});
      var d := Header("Date", lib.formatDate(timestamp));
      WithoutConcat(Without(clear, {"date"}), [d], {"x-amz-date"});
      WithoutBoth(h, {"authorization"} + {"date"}, {"x-amz-date"});
      WithoutOne(d, {"x-amz-date"});
      assert {"authorization"} + {"date"} + {"x-amz-date"} == {"authorization", "date", "x-amz-date"};
    } else {
      WithoutMissing(clear, "date");
      WithoutBoth(h, {"authorization"}, {"date"});
      WithoutBoth(h, {"authorization"} + {"date"}, {"x-amz-date"});
      assert {"authorization"} + {"date"} + {"x-amz-date"} == {"authorization", "date", "x-amz-date"};
    }
  }

  lemma PutBehind(h: seq<Header>, names: set<string>, tail: seq<Header>, name: string, value: string)
    requires Without(tail, {Lower(name)}) == tail
    ensures Put(Without(h, names) + tail, name, value) ==
              Without(h, names + {Lower(name)}) + (tail + [Header(name, value)])
  {
    WithoutConcat(Without(h, names), tail, {Lower(name)});
    WithoutBoth(h, names, {Lower(name)});
  }

  lemma StampsForm(lib: Library, s: Signer, h: seq<Header>, timestamp: string)
    ensures var h1 := Dated(lib, Without(h, {"authorization"}), timestamp);
            (if s.credentials.token != "" then Put(h1, "X-Amz-Security-Token", s.credentials.token) else h1)
            == Without(h, {"authorization", "date", "x-amz-date"} + TokenNames(s))
               + Stamps(lib, s, Has(h, "Date"), timestamp)
  {
    HeaderNames();
    DatedForm(lib, h, timestamp);
    var d := DateHeader(lib, Has(h, "Date"), timestamp);
    WithoutOne(d, {"x-amz-security-token"});
    if s.credentials.token != "" {
      PutBehind(h, {"authorization", "date", "x-amz-date"}, [d], "X-Amz-Security-Token", s.credentials.token);
    } else {
      assert {"authorization", "date", "x-amz-date"} + TokenNames(s) == {"authorization", "date", "x-amz-date"};
      assert [d] + [] == [d];
    }
  }

  lemma StampsHaveNoHash(lib: Library, s: Signer, dated: bool, timestamp: string)
    ensures var tail := Stamps(lib, s, dated, timestamp);
            Without(tail, {"x-amz-content-sha256"}) == tail
  {
    HeaderNames();
    WithoutConcat([DateHeader(lib, dated, timestamp)], TokenHeaders(s), {"x-amz-content-sha256"});
    WithoutOne(DateHeader(lib, dated, timestamp), {"x-amz-content-sha256"});
    if s.credentials.token != "" {
      WithoutOne(Header("X-Amz-Security-Token", s.credentials.token), {"x-amz-content-sha256"});
    }
  }

  lemma HashTwice(h: seq<Header>, value: string)
    ensures Without(Put(h, "X-Amz-Content-SHA256", value), {Lower("X-Amz-Content-SHA256")})
            == Without(h, {Lower("X-Amz-Content-SHA256")})
  {
    var hash := {Lower("X-Amz-Content-SHA256")};
    WithoutConcat(Without(h, hash), [Header("X-Amz-Content-SHA256", value)], hash);
    WithoutOne(Header("X-Amz-Content-SHA256", value), hash);
    WithoutBoth(h, hash, hash);
    assert hash + hash == hash;
  }

  lemma HashForm(lib: Library, s: Signer, f: Fixed, h: seq<Header>)
    ensures var kept := if HasHash(s, f) then Without(h, {"x-amz-content-sha256"}) else h;
            Hashed(lib, s, f, h) == kept + HashHeaders(lib, s, f, kept)
  {
    assert Lower("X-Amz-Content-SHA256") == "x-amz-content-sha256" by { HeaderNames(); }
    HashTwice(h, UNSIGNED_PAYLOAD);
    assert h + [] == h;
  }

  function Kept(lib: Library, s: Signer, f: Fixed, h: seq<Header>, timestamp: string): seq<Header> {
    Without(h, Cleared(s, f)) + Stamps(lib, s, Has(h, "Date"), timestamp)
  }

  /** The headers before signing: those that are kept, in their order, then a date, a token and a hash. */
  lemma PreparedForm(lib: Library, s: Signer, f: Fixed, h: seq<Header>, timestamp: string)
    ensures var kept := Kept(lib, s, f, h, timestamp);
            Prepared(lib, s, f, h, timestamp) == kept + HashHeaders(lib, s, f, kept)
  {
    assert Lower("Authorization") == "authorization" by { HeaderNames(); }
    var names := {"authorization", "date", "x-amz-date"} + TokenNames(s);
    var hash := {"x-amz-content-sha256"};
    var tail := Stamps(lib, s, Has(h, "Date"), timestamp);
    StampsForm(lib, s, h, timestamp);
    var h2 := Without(h, names) + tail;
    assert Without(h2, hash) == Without(h, names + hash) + tail by {
      StampsHaveNoHash(lib, s, Has(h, "Date"), timestamp);
      WithoutConcat(Without(h, names), tail, hash);
      WithoutBoth(h, names, hash);
    }
    HashForm(lib, s, f, h2);
    assert Cleared(s, f) == names + HashNames(s, f);
    assert !HasHash(s, f) ==> names + HashNames(s, f) == names;
    assert Kept(lib, s, f, h, timestamp) == if HasHash(s, f) then Without(h2, hash) else h2;
  }

  /** All that signing appends, whatever the values are. */
  function Added(dated: bool, date: string, token: string, hash: Option<string>, auth: string): seq<Header> {
    [if dated then Header("Date", date) else Header("X-Amz-Date", date)]
    + (if token != "" then [Header("X-Amz-Security-Token", token)] else [])
    + (if hash.Some? then [Header("X-Amz-Content-SHA256", hash.value)] else [])
    + [Header("Authorization", auth)]
  }

  lemma AddedForm(lib: Library, s: Signer, f: Fixed, h: seq<Header>, timestamp: string, auth: string)
      returns (date: string, hash: Option<string>)
    ensures Prepared(lib, s, f, h, timestamp) + [Header("Authorization", auth)]
            == Without(h, Cleared(s, f)) + Added(Has(h, "Date"), date, s.credentials.token, hash, auth)
    ensures hash.Some? <==> HasHash(s, f)
  {
    PreparedForm(lib, s, f, h, timestamp);
    var hashes := HashHeaders(lib, s, f, Kept(lib, s, f, h, timestamp));
    date := DateHeader(lib, Has(h, "Date"), timestamp).value;
    hash := if hashes == [] then None else Some(hashes[0].value);
    Regroup(Without(h, Cleared(s, f)), Stamps(lib, s, Has(h, "Date"), timestamp), hashes,
            [Header("Authorization", auth)]);
  }

  lemma Regroup(a: seq<Header>, b: seq<Header>, c: seq<Header>, d: seq<Header>)
    ensures a + b + c + d == a + (b + c + d)
  {
  }

  lemma AddedNames(dated: bool, date: string, token: string, hash: Option<string>, auth: string, names: set<string>)
    requires {"authorization", "date", "x-amz-date"} <= names
    requires (token != "" ==> "x-amz-security-token" in names) && (hash.Some? ==> "x-amz-content-sha256" in names)
    ensures Without(Added(dated, date, token, hash, auth), names) == []
  {
    HeaderNames();
    WithoutAll(Added(dated, date, token, hash, auth), names);
  }

  lemma {:induction false} ValuesMatter(h: seq<Header>, name: string)
    ensures Values(h, name) != [] <==> exists i :: 0 <= i < |h| && Lower(h[i].name) == name
  {
    if h != [] {
      ValuesMatter(h[1..], name);
      if i :| 0 <= i < |h| && Lower(h[i].name) == name && i > 0 { assert h[1..][i - 1] == h[i]; }
    }
  }

  lemma AddedValues(dated: bool, date: string, token: string, hash: Option<string>, auth: string)
    ensures Values(Added(dated, date, token, hash, auth), "date") != [] <==> dated
    ensures Values(Added(dated, date, token, hash, auth), "x-amz-security-token") != [] <==> token != ""
    ensures Values(Added(dated, date, token, hash, auth), "x-amz-content-sha256") != [] <==> hash.Some?
  {
    HeaderNames();
    var added := Added(dated, date, token, hash, auth);
    ValuesMatter(added, "date");
    ValuesMatter(added, "x-amz-security-token");
    ValuesMatter(added, "x-amz-content-sha256");
    assert added[0].name == if dated then "Date" else "X-Amz-Date";
    if token != "" { assert added[1].name == "X-Amz-Security-Token"; }
    if hash.Some? { assert added[|added| - 2].name == "X-Amz-Content-SHA256"; }
  }

  /** Signing leaves nothing of an earlier signing by a signer that clears no more than it does. */
  lemma ClearsEarlier(lib: Library, s1: Signer, f: Fixed, h: seq<Header>, before: string, auth: string,
                      names: set<string>)
    requires Cleared(s1, f) <= names
    ensures var h1 := Prepared(lib, s1, f, h, before) + [Header("Authorization", auth)];
            Without(h1, names) == Without(h, names) && Has(h1, "Date") == Has(h, "Date")
  {
    var c := Cleared(s1, f);
    var date, hash := AddedForm(lib, s1, f, h, before, auth);
    var added := Added(Has(h, "Date"), date, s1.credentials.token, hash, auth);
    WithoutConcat(Without(h, c), added, names);
    WithoutBoth(h, c, names);
    assert c + names == names;
    AddedNames(Has(h, "Date"), date, s1.credentials.token, hash, auth, names);
    WithoutValues(h, c, "date");
    ValuesConcat(Without(h, c), added, "date");
    AddedValues(Has(h, "Date"), date, s1.credentials.token, hash, auth);
    assert Lower("Date") == "date" by { HeaderNames(); }
  }

  lemma PreparedAlike(lib: Library, s: Signer, f: Fixed, h: seq<Header>, h': seq<Header>, now: string)
    requires Without(h, Cleared(s, f)) == Without(h', Cleared(s, f)) && Has(h, "Date") == Has(h', "Date")
    ensures Prepared(lib, s, f, h, now) == Prepared(lib, s, f, h', now)
  {
    PreparedForm(lib, s, f, h, now);
    PreparedForm(lib, s, f, h', now);
  }

  lemma ResignedAlike(lib: Library, s1: Signer, s2: Signer, r: Request, before: string, now: string)
    requires Cleared(s1, r.fixed) <= Cleared(s2, r.fixed)
    ensures Signed(lib, s2, Signed(lib, s1, r, before), now) == Signed(lib, s2, r, now)
  {
    var r1 := Signed(lib, s1, r, before);
    ClearsEarlier(lib, s1, r.fixed, r.headers, before, r1.headers[|r1.headers| - 1].value, Cleared(s2, r.fixed));
    PreparedAlike(lib, s2, r.fixed, r1.headers, r.headers, now);
  }

  /** Whether a header that a signer may add is there afterwards. */
  lemma FormValues(h: seq<Header>, names: set<string>, dated: bool, date: string, token: string, hash: Option<string>,
                   auth: string)
    requires "date" in names
    ensures var all := Without(h, names) + Added(dated, date, token, hash, auth);
            && (Values(all, "date") != [] <==> dated)
            && (Values(all, "x-amz-security-token") != [] <==>
                  token != "" || ("x-amz-security-token" !in names && Values(h, "x-amz-security-token") != []))
            && (Values(all, "x-amz-content-sha256") != [] <==>
                  hash.Some? || ("x-amz-content-sha256" !in names && Values(h, "x-amz-content-sha256") != []))
  {
    var added := Added(dated, date, token, hash, auth);
    AddedValues(dated, date, token, hash, auth);
    ValuesWith(h, names, added, "date");
    ValuesWith(h, names, added, "x-amz-security-token");
    ValuesWith(h, names, added, "x-amz-content-sha256");
  }

  lemma ValuesWith(h: seq<Header>, names: set<string>, added: seq<Header>, name: string)
    ensures Values(Without(h, names) + added, name) != [] <==>
            Values(added, name) != [] || (name !in names && Values(h, name) != [])
  {
    WithoutValues(h, names, name);
    ValuesConcat(Without(h, names), added, name);
  }

  lemma SignedForm(lib: Library, s: Signer, r: Request, now: string)
    returns (date: string, hash: Option<string>, auth: string)
    ensures Signed(lib, s, r, now).headers
            == Without(r.headers, Cleared(s, r.fixed))
               + Added(Has(r.headers, "Date"), date, s.credentials.token, hash, auth)
    ensures hash.Some? <==> HasHash(s, r.fixed)
  {
    var h := Signed(lib, s, r, now).headers;
    auth := h[|h| - 1].value;
    date, hash := AddedForm(lib, s, r.fixed, r.headers, now, auth);
  }

  /** Lists that differ still differ with equally many headers behind them. */
  lemma FrontsDiffer(a: seq<Header>, b: seq<Header>, c: seq<Header>, d: seq<Header>)
    requires a != c && |b| == |d|
    ensures a + b != c + d
  {
    assert a == (a + b)[..|a|] && c == (c + d)[..|c|];
  }

  /**
   Signing again, at any time and with any signer, gives what that signer would give at once, exactly if the first
   signing left the headers alone that the second does not clear.
   */
  lemma ResignExactly(lib: Library, s1: Signer, s2: Signer, r: Request, before: string, now: string)
    ensures Signed(lib, s2, Signed(lib, s1, r, before), now) == Signed(lib, s2, r, now)
            <==>
            Without(Signed(lib, s1, r, before).headers, Cleared(s2, r.fixed)) ==
            Without(r.headers, Cleared(s2, r.fixed))
  {
    var r1, c := Signed(lib, s1, r, before), Cleared(s2, r.fixed);
    DateStays(lib, s1, r, before);
    if Without(r1.headers, c) == Without(r.headers, c) {
      PreparedAlike(lib, s2, r.fixed, r1.headers, r.headers, now);
    } else {
      KeptDiffers(lib, s2, r, r1, now);
    }
  }

  lemma DateStays(lib: Library, s: Signer, r: Request, now: string)
    ensures Has(Signed(lib, s, r, now).headers, "Date") == Has(r.headers, "Date")
  {
    var date, hash, auth := SignedForm(lib, s, r, now);
    FormValues(r.headers, Cleared(s, r.fixed), Has(r.headers, "Date"), date, s.credentials.token, hash, auth);
    assert Lower("Date") == "date" by { HeaderNames(); }
  }

  lemma KeptDiffers(lib: Library, s: Signer, r: Request, r1: Request, now: string)
    requires r1.fixed == r.fixed && Without(r1.headers, Cleared(s, r.fixed)) != Without(r.headers, Cleared(s, r.fixed))
    ensures Signed(lib, s, r1, now).headers != Signed(lib, s, r, now).headers
  {
    var kept, kept1 := Without(r.headers, Cleared(s, r.fixed)), Without(r1.headers, Cleared(s, r.fixed));
    var added := SignedSplit(lib, s, r, now);
    var added1 := SignedSplit(lib, s, r1, now);
    assert kept1 != kept && |added1| == |added|;
    FrontsDiffer(kept1, added1, kept, added);
  }

  /** A signer always adds the same number of headers. */
  lemma SignedSplit(lib: Library, s: Signer, r: Request, now: string) returns (added: seq<Header>)
    ensures Signed(lib, s, r, now).headers == Without(r.headers, Cleared(s, r.fixed)) + added
    ensures |added| == 2 + (if s.credentials.token != "" then 1 else 0) + (if HasHash(s, r.fixed) then 1 else 0)
  {
    var date, hash, auth := SignedForm(lib, s, r, now);
    added := Added(Has(r.headers, "Date"), date, s.credentials.token, hash, auth);
    AddedLength(Has(r.headers, "Date"), date, s.credentials.token, hash, auth);
  }

  lemma AddedLength(dated: bool, date: string, token: string, hash: Option<string>, auth: string)
    ensures |Added(dated, date, token, hash, auth)| ==
              2 + (if token != "" then 1 else 0) + (if hash.Some? then 1 else 0)
  {
  }

  lemma LeftBehind(h1: seq<Header>, h: seq<Header>, names: set<string>, name: string)
    requires Values(h1, name) != [] && Values(h, name) == [] && name !in names
    ensures Without(h1, names) != Without(h, names)
  {
    WithoutValues(h1, names, name);
    WithoutValues(h, names, name);
  }

  lemma {:induction false} WithoutAll(h: seq<Header>, names: set<string>)
    requires forall i :: 0 <= i < |h| ==> Lower(h[i].name) in names
    ensures Without(h, names) == []
  {
    if h != [] { WithoutAll(h[1..], names); }
  }

  /** Signing again with the same credentials at the same time changes nothing. */
  lemma SignTwice(lib: Library, s: Signer, r: Request, now: string)
    ensures Signed(lib, s, Signed(lib, s, r, now), now) == Signed(lib, s, r, now)
  {
    ResignedAlike(lib, s, s, r, now, now);
  }

  /**
   So for a request that came without a token and a payload hash it does so exactly if the second signer has a token
   or the first one has none, and the second one sets a payload hash or the first one does not.
   */
  lemma Resign(lib: Library, s1: Signer, s2: Signer, r: Request, before: string, now: string)
    requires !Has(r.headers, "X-Amz-Security-Token") && !Has(r.headers, "X-Amz-Content-SHA256")
    ensures Signed(lib, s2, Signed(lib, s1, r, before), now) == Signed(lib, s2, r, now)
            <==> (s1.credentials.token == "" || s2.credentials.token != "")
                 && (s2.s3 || !s1.s3 || !r.fixed.payloadSigning)
  {
    if (s1.credentials.token == "" || s2.credentials.token != "") && (s2.s3 || !s1.s3 || !r.fixed.payloadSigning) {
      ResignedAlike(lib, s1, s2, r, before, now);
    } else {
      ResignedDiffers(lib, s1, s2, r, before, now);
    }
  }

  lemma ResignedDiffers(lib: Library, s1: Signer, s2: Signer, r: Request, before: string, now: string)
    requires !Has(r.headers, "X-Amz-Security-Token") && !Has(r.headers, "X-Amz-Content-SHA256")
    requires (s1.credentials.token != "" && s2.credentials.token == "") || (s1.s3 && !s2.s3 && r.fixed.payloadSigning)
    ensures Signed(lib, s2, Signed(lib, s1, r, before), now) != Signed(lib, s2, r, now)
  {
    SignedStaysBehind(lib, s1, s2, r, before);
    KeptDiffers(lib, s2, r, Signed(lib, s1, r, before), now);
  }

  lemma SignedStaysBehind(lib: Library, s1: Signer, s2: Signer, r: Request, before: string)
    requires !Has(r.headers, "X-Amz-Security-Token") && !Has(r.headers, "X-Amz-Content-SHA256")
    requires (s1.credentials.token != "" && s2.credentials.token == "") || (s1.s3 && !s2.s3 && r.fixed.payloadSigning)
    ensures Without(Signed(lib, s1, r, before).headers, Cleared(s2, r.fixed)) !=
              Without(r.headers, Cleared(s2, r.fixed))
  {
    var date, hash, auth := SignedForm(lib, s1, r, before);
    StaysBehind(s1, s2, r.fixed, r.headers, Has(r.headers, "Date"), date, hash, auth);
  }

  lemma ClearedNames(s: Signer, f: Fixed)
    ensures "date" in Cleared(s, f)
    ensures "x-amz-security-token" in Cleared(s, f) <==> s.credentials.token != ""
    ensures "x-amz-content-sha256" in Cleared(s, f) <==> s.s3 || !f.payloadSigning
  {
  }

  lemma StaysBehind(s1: Signer, s2: Signer, f: Fixed, h: seq<Header>, dated: bool, date: string, hash: Option<string>,
                    auth: string)
    requires !Has(h, "X-Amz-Security-Token") && !Has(h, "X-Amz-Content-SHA256")
    requires (s1.credentials.token != "" && s2.credentials.token == "") || (s1.s3 && !s2.s3 && f.payloadSigning)
    requires hash.Some? <==> HasHash(s1, f)
    ensures var h1 := Without(h, Cleared(s1, f)) + Added(dated, date, s1.credentials.token, hash, auth);
            Without(h1, Cleared(s2, f)) != Without(h, Cleared(s2, f))
  {
    ClearedNames(s1, f);
    ClearedNames(s2, f);
    assert s1.s3 ==> "x-amz-content-sha256" in HashNames(s1, f);
    NoneBefore(h);
    FormLeft(h, Cleared(s1, f), Cleared(s2, f), dated, date, s1.credentials.token, hash, auth);
  }

  lemma NoneBefore(h: seq<Header>)
    requires !Has(h, "X-Amz-Security-Token") && !Has(h, "X-Amz-Content-SHA256")
    ensures Values(h, "x-amz-security-token") == [] && Values(h, "x-amz-content-sha256") == []
  {
    HeaderNames();
  }

  lemma FormLeft(h: seq<Header>, names: set<string>, names2: set<string>, dated: bool, date: string, token: string,
                 hash: Option<string>, auth: string)
    requires "date" in names && Values(h, "x-amz-security-token") == [] && Values(h, "x-amz-content-sha256") == []
    requires (token != "" && "x-amz-security-token" !in names2) || (hash.Some? && "x-amz-content-sha256" !in names2)
    ensures Without(Without(h, names) + Added(dated, date, token, hash, auth), names2) != Without(h, names2)
  {
    FormValues(h, names, dated, date, token, hash, auth);
    var name := if token != "" && "x-amz-security-token" !in names2 then "x-amz-security-token"
                else "x-amz-content-sha256";
    LeftBehind(Without(h, names) + Added(dated, date, token, hash, auth), h, names2, name);
  }

  // ----- order does not matter ------------------------------------------------------------------

  /**
   The canonical request is the same for any order of the params and any header order that keeps each name's values.
   */
  lemma CanonicalReordered(lib: Library, s3: bool, f: Fixed, params: seq<Pair>, h: seq<Header>, h': seq<Header>)
    requires multiset(params) == multiset(f.params) && SameByName(h, h')
    ensures CanonicalRequest(lib, s3, f.(params := params), h') == CanonicalRequest(lib, s3, f, h)
  {
    ParamsReordered(lib.quote, params, f.params, f.query);
    HeadersReordered(h, h', f.host);
    HashReordered(lib, s3, f, params, h, h');
  }

  lemma HashReordered(lib: Library, s3: bool, f: Fixed, params: seq<Pair>, h: seq<Header>, h': seq<Header>)
    requires SameByName(h, h')
    ensures ContentHash(lib, s3, f.(params := params), h') == ContentHash(lib, s3, f, h)
  {
    var checksum := Lower(if f.checksumHeader.Some? then f.checksumHeader.value else "Content-MD5");
    assert Values(h, checksum) == Values(h', checksum);
    var hash := Lower("X-Amz-Content-SHA256");
    assert Values(h, hash) == Values(h', hash);
  }
}
