/** The signing string of a request: five fields, one to a line, the last the digest of the body in hexadecimal. */
module RequestSigning {
  import opened Wrappers
  import opened Hex
  import opened CanonicalJson
  import opened CanonicalProofs
  import opened Identity

  const DIGEST_LENGTH: nat := 32

  datatype Request = Request(verb: string, path: string, timestamp: string, nonce: string, body: seq<Byte>)

  /** The body's digest; what it is does not matter here but for its length. */
  type Hash = h: seq<Byte> -> seq<Byte> | forall body :: |h(body)| == DIGEST_LENGTH
    ghost witness ((body: seq<Byte>) => seq(DIGEST_LENGTH, i => 0))

  /** The four fields before the digest. */
  function Lines(a: string, b: string, c: string, d: string): string {
    a + ("\n" + (b + ("\n" + (c + ("\n" + d)))))
  }

  function Fields(r: Request): string {
    Lines(r.verb, r.path, r.timestamp, r.nonce)
  }

  function SigningString(r: Request, hash: Hash): string {
    Fields(r) + ("\n" + HexText(hash(r.body)))
  }

  method BuildSigningString(r: Request, hash: Hash) returns (s: string)
    ensures s == SigningString(r, hash)
  {
    var digest := hash(r.body);
    var hex := "";
    for i := 0 to |digest|
      invariant hex == HexText(digest[..i])
    {
      assert digest[..i + 1][..i] == digest[..i];
      hex := hex + HexByte(digest[i]);
    }
    assert digest[..|digest|] == digest;
    s := Joined([r.verb, r.path, r.timestamp, r.nonce, hex]);
    JoinedFive(r.verb, r.path, r.timestamp, r.nonce, hex);
  }

  /** One field to a line. */
  function Joined(fields: seq<string>): string {
    if |fields| == 0 then ""
    else if |fields| == 1 then fields[0]
    else fields[0] + ("\n" + Joined(fields[1..]))
  }

  lemma JoinedFirst(first: string, rest: seq<string>)
    requires rest != []
    ensures Joined([first] + rest) == first + ("\n" + Joined(rest))
  {
    assert ([first] + rest)[1..] == rest;
  }

  lemma JoinedFive(a: string, b: string, c: string, d: string, e: string)
    ensures Joined([a, b, c, d, e]) == Lines(a, b, c, d) + ("\n" + e)
  {
    assert [d] + [e] == [d, e] && [c] + [d, e] == [c, d, e] && [b] + [c, d, e] == [b, c, d, e];
    assert [a] + [b, c, d, e] == [a, b, c, d, e];
    JoinedFirst(d, [e]);
    JoinedFirst(c, [d, e]);
    JoinedFirst(b, [c, d, e]);
    JoinedFirst(a, [b, c, d, e]);
    var end := "\n" + e;
    Assoc("\n", d, end);
    Assoc(c, "\n" + d, end);
    Assoc("\n", c + ("\n" + d), end);
    Assoc(b, "\n" + (c + ("\n" + d)), end);
    Assoc("\n", b + ("\n" + (c + ("\n" + d))), end);
    Assoc(a, "\n" + (b + ("\n" + (c + ("\n" + d)))), end);
  }

  /** What is signed, spelled out: method, path, time and nonce, a line each, and then the 64 digits of the digest. */
  lemma SigningStringText(r: Request, hash: Hash)
    ensures SigningString(r, hash)
         == r.verb + "\n" + r.path + "\n" + r.timestamp + "\n" + r.nonce + "\n" + HexText(hash(r.body))
    ensures |HexText(hash(r.body))| == 64
  {
    var last := "\n" + HexText(hash(r.body));
    Assoc(r.timestamp, "\n", r.nonce);
    Assoc(r.path, "\n", r.timestamp + "\n" + r.nonce);
    Assoc(r.verb, "\n", r.path + "\n" + (r.timestamp + "\n" + r.nonce));
  }

  // ---- line ends ----

  predicate NewlineFree(r: Request) {
    '\n' !in r.verb && '\n' !in r.path && '\n' !in r.timestamp && '\n' !in r.nonce
  }

  function LineEnds(s: string): nat {
    if s == "" then 0 else (if s[0] == '\n' then 1 else 0) + LineEnds(s[1..])
  }

  lemma {:induction false} LineEndsJoined(s: string, t: string)
    ensures LineEnds(s + t) == LineEnds(s) + LineEnds(t)
  {
    if s == "" {
      assert s + t == t;
    } else {
      assert (s + t)[1..] == s[1..] + t;
      LineEndsJoined(s[1..], t);
    }
  }

  lemma {:induction false} NoLineEnds(s: string)
    ensures LineEnds(s) == 0 <==> '\n' !in s
  {
    if s != "" {
      NoLineEnds(s[1..]);
      assert '\n' in s <==> s[0] == '\n' || '\n' in s[1..];
    }
  }

  lemma LineEndsOfLines(a: string, b: string, c: string, d: string)
    ensures LineEnds(Lines(a, b, c, d)) == LineEnds(a) + LineEnds(b) + LineEnds(c) + LineEnds(d) + 3
  {
    LineEndsJoined("\n", d);
    LineEndsJoined(c, "\n" + d);
    LineEndsJoined("\n", c + ("\n" + d));
    LineEndsJoined(b, "\n" + (c + ("\n" + d)));
    LineEndsJoined("\n", b + ("\n" + (c + ("\n" + d))));
    LineEndsJoined(a, "\n" + (b + ("\n" + (c + ("\n" + d)))));
    assert LineEnds("\n") == 1;
  }

  lemma FreeExactlyWhen(r: Request)
    ensures NewlineFree(r) <==> LineEnds(Fields(r)) == 3
  {
    LineEndsOfLines(r.verb, r.path, r.timestamp, r.nonce);
    NoLineEnds(r.verb);
    NoLineEnds(r.path);
    NoLineEnds(r.timestamp);
    NoLineEnds(r.nonce);
  }

  /** A first line ends at the first line end. */
  lemma FirstLine(a: string, b: string, r: string, t: string)
    requires '\n' !in a && '\n' !in b && a + ("\n" + r) == b + ("\n" + t)
    ensures a == b && r == t
  {
    if |a| < |b| {
      LaterLine(a, b, r, t);
    } else if |b| < |a| {
      LaterLine(b, a, t, r);
    } else {
      SameLengthSplit(a, b, "\n" + r, "\n" + t);
      SameLengthSplit("\n", "\n", r, t);
    }
  }

  lemma LaterLine(a: string, b: string, r: string, t: string)
    requires a + ("\n" + r) == b + ("\n" + t) && |a| < |b|
    ensures '\n' in b
  {
    assert b[|a|] == (b + ("\n" + t))[|a|] == (a + ("\n" + r))[|a|] == '\n';
  }

  lemma FourLines(r: Request, q: Request)
    requires NewlineFree(r) && NewlineFree(q) && Fields(r) == Fields(q)
    ensures r.verb == q.verb && r.path == q.path && r.timestamp == q.timestamp && r.nonce == q.nonce
  {
    FirstLine(r.verb, q.verb, r.path + ("\n" + (r.timestamp + ("\n" + r.nonce))),
              q.path + ("\n" + (q.timestamp + ("\n" + q.nonce))));
    FirstLine(r.path, q.path, r.timestamp + ("\n" + r.nonce), q.timestamp + ("\n" + q.nonce));
    FirstLine(r.timestamp, q.timestamp, r.nonce, q.nonce);
  }

  lemma DigestApart(r: Request, q: Request, hash: Hash)
    requires SigningString(r, hash) == SigningString(q, hash)
    ensures Fields(r) == Fields(q) && hash(r.body) == hash(q.body)
  {
    var x, y := "\n" + HexText(hash(r.body)), "\n" + HexText(hash(q.body));
    assert |x| == |y|;
    assert |Fields(r)| == |Fields(q)|;
    SameLengthSplit(Fields(r), Fields(q), x, y);
    SameLengthSplit("\n", "\n", HexText(hash(r.body)), HexText(hash(q.body)));
    HexTextInjective(hash(r.body), hash(q.body));
  }

  /** Whether the signing string of a request determines everything in it but what the digest hides. */
  ghost predicate Unambiguous(r: Request, hash: Hash) {
    forall q :: SigningString(q, hash) == SigningString(r, hash) ==>
                  && q.verb == r.verb && q.path == r.path && q.timestamp == r.timestamp && q.nonce == r.nonce
                  && hash(q.body) == hash(r.body)
  }

  lemma CutAt(s: string) returns (a: string, b: string)
    requires '\n' in s
    ensures s == a + ("\n" + b)
  {
    var i :| 0 <= i < |s| && s[i] == '\n';
    a, b := s[..i], s[i + 1..];
  }

  lemma Regroup(a: string, b: string, x: string, rest: string)
    ensures (a + ("\n" + b)) + ("\n" + (x + rest)) == a + ("\n" + ((b + ("\n" + x)) + rest))
  {
    Assoc("\n", x, rest);
    Assoc(b, "\n" + x, rest);
    Assoc("\n", b, "\n" + (x + rest));
    Assoc(a, "\n" + b, "\n" + (x + rest));
  }

  /** A line end inside a field can be read as the end of the field. */
  lemma Shifted(r: Request) returns (q: Request)
    requires !NewlineFree(r)
    ensures q.body == r.body && Fields(q) == Fields(r)
    ensures q.verb != r.verb || q.path != r.path || q.timestamp != r.timestamp || q.nonce != r.nonce
  {
    if '\n' in r.verb {
      var a, b := CutAt(r.verb);
      q := Request(a, b + ("\n" + r.path), r.timestamp, r.nonce, r.body);
      Regroup(a, b, r.path, "\n" + (r.timestamp + ("\n" + r.nonce)));
      assert |q.verb| < |r.verb|;
    } else if '\n' in r.path {
      var a, b := CutAt(r.path);
      q := Request(r.verb, a, b + ("\n" + r.timestamp), r.nonce, r.body);
      Regroup(a, b, r.timestamp, "\n" + r.nonce);
      assert |q.path| < |r.path|;
    } else if '\n' in r.timestamp {
      var a, b := CutAt(r.timestamp);
      q := Request(r.verb, r.path, a, b + ("\n" + r.nonce), r.body);
      Regroup(a, b, r.nonce, "");
      assert r.nonce + "" == r.nonce && b + ("\n" + r.nonce) + "" == b + ("\n" + r.nonce);
      assert |q.timestamp| < |r.timestamp|;
    } else {
      var a, b := CutAt(r.nonce);
      q := Request(r.verb, r.path, r.timestamp + ("\n" + a), b, r.body);
      Assoc(r.timestamp, "\n" + a, "\n" + b);
      Assoc("\n", a, "\n" + b);
      assert |q.nonce| < |r.nonce|;
    }
  }

  /** The signing string of a request is that of no other exactly when none of its fields holds a line end. */
  lemma UnambiguousExactlyWhen(r: Request, hash: Hash)
    ensures Unambiguous(r, hash) <==> NewlineFree(r)
  {
    if NewlineFree(r) {
      forall q | SigningString(q, hash) == SigningString(r, hash)
        ensures q.verb == r.verb && q.path == r.path && q.timestamp == r.timestamp && q.nonce == r.nonce
        ensures hash(q.body) == hash(r.body)
      {
        DigestApart(q, r, hash);
        FreeExactlyWhen(r);
        FreeExactlyWhen(q);
        FourLines(q, r);
      }
    } else {
      var q := Shifted(r);
      assert SigningString(q, hash) == SigningString(r, hash);
    }
  }

  // ---- requests and identity statements ----

  lemma SigningStringHasLineEnd(r: Request, hash: Hash)
    ensures '\n' in SigningString(r, hash)
  {
    assert SigningString(r, hash)[|Fields(r)|] == '\n';
  }

  /** No request, whatever its method, is signed like an identity statement about a document. */
  lemma RequestNeverAStatement(r: Request, hash: Hash, p: SignaturePurpose, d: Document)
    requires Signed(p, d).Ok?
    ensures SigningString(r, hash) != Signed(p, d).value
  {
    SigningStringHasLineEnd(r, hash);
    SignedHasNoLineEnd(p, d);
  }

  /** Nor is a request with one of the methods in use, whatever the payload of the statement. */
  lemma MethodNeverADomain(r: Request, hash: Hash, p: SignaturePurpose, payload: string)
    requires r.verb in {"GET", "POST", "PUT"}
    ensures SigningString(r, hash) != p.SigningBytes(payload)
  {
    assert SigningString(r, hash)[0] == r.verb[0];
    assert p.SigningBytes(payload)[0] == 'f';
  }
}
