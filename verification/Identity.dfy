/** The domains an identity key signs in: what is signed says which kind of statement it is. */
module Identity {
  import opened Wrappers
  import opened CanonicalJson
  import opened CanonicalProofs
  import opened CanonicalMeaning

  const DOMAIN_VERSION: string := "v1"
  const NUL: char := 0 as char

  datatype SignaturePurpose = Bundle | Vouch | Removal {
    function Name(): string {
      match this
      case Bundle => "bundle"
      case Vouch => "vouch"
      case Removal => "removal"
    }

    function Domain(): string {
      "family-beacon/" + Name() + "/" + DOMAIN_VERSION + [NUL]
    }

    /** What is signed over a payload already in canonical form. */
    function SigningBytes(payload: string): string {
      Domain() + payload
    }
  }

  /** What is signed, spelled out: the product, the purpose and the version between slashes, a NUL, and the payload. */
  lemma SignedText(p: SignaturePurpose, payload: string)
    ensures p.SigningBytes(payload)
         == (match p
             case Bundle => "family-beacon/bundle/v1"
             case Vouch => "family-beacon/vouch/v1"
             case Removal => "family-beacon/removal/v1") + [0 as char] + payload
  {
  }

  /** The letter after the last slash but one tells the purposes apart. */
  lemma DomainLetter(p: SignaturePurpose, payload: string)
    ensures |p.SigningBytes(payload)| > 14
    ensures p.SigningBytes(payload)[14] == match p case Bundle => 'b' case Vouch => 'v' case Removal => 'r'
  {
    assert p.Domain() == "family-beacon/" + (p.Name() + "/" + DOMAIN_VERSION + [NUL]);
    assert p.Domain()[14] == p.Name()[0];
  }

  /** A signature is over one payload, for one purpose. */
  lemma SigningBytesInjective(p: SignaturePurpose, q: SignaturePurpose, a: string, b: string)
    requires p.SigningBytes(a) == q.SigningBytes(b)
    ensures p == q && a == b
  {
    DomainLetter(p, a);
    DomainLetter(q, b);
    SameLengthSplit(p.Domain(), q.Domain(), a, b);
  }

  /** No purpose's domain is the beginning of another's. */
  lemma DomainsNotPrefixes(p: SignaturePurpose, q: SignaturePurpose)
    requires p.Domain() <= q.Domain()
    ensures p == q
  {
    var rest := q.Domain()[|p.Domain()|..];
    assert q.SigningBytes("") == p.SigningBytes(rest);
    SigningBytesInjective(q, p, "", rest);
  }

  /** What is signed over a document, unless it cannot be encoded. */
  function Signed(p: SignaturePurpose, d: Document): Result<string, string> {
    match Canonical(d)
    case Ok(text) => Ok(p.SigningBytes(text))
    case Err(path) => Err(path)
  }

  /** Two statements are signed alike exactly when they have the same purpose and, but for the order of fields, the same
      content. */
  lemma SignedAlikeExactlyWhen(p: SignaturePurpose, q: SignaturePurpose, a: Document, b: Document)
    requires Distinct(a) && Distinct(b) && Signed(p, a).Ok? && Signed(q, b).Ok?
    ensures Signed(p, a) == Signed(q, b) <==> p == q && Reordered(a, b)
  {
    SameTextExactlyWhen(a, b);
    if Signed(p, a) == Signed(q, b) {
      SigningBytesInjective(p, q, Canonical(a).value, Canonical(b).value);
    }
  }

  lemma PrintableHasNoLineEnd(s: string)
    requires Printable(s)
    ensures '\n' !in s
  {
  }

  /** What an identity key signs over a document never holds a line end. */
  lemma SignedHasNoLineEnd(p: SignaturePurpose, d: Document)
    requires Signed(p, d).Ok?
    ensures '\n' !in Signed(p, d).value
  {
    CanonicalPrintable(d);
    PrintableHasNoLineEnd(Canonical(d).value);
    assert '\n' !in p.Domain();
  }
}
