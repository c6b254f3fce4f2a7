/**
 * The text form of a signed token. The JSON Web Token library is not part of this model;
 * in its place a token is the record below, written out as decimal numbers each followed
 * by a '.', so that a token never contains a space and reads back to the record it was
 * written from.
 */
module TokenCodec {
  import opened Wrappers
  import opened Text

  /** The claims the backend puts in a token; every one of them may be absent. */
  datatype Claims = Claims(
    userId: Option<string>,
    email: Option<string>,
    role: Option<string>,
    schoolId: Option<string>,
    kind: Option<string>,      // the `type` claim
    timestamp: Option<nat>)    // milliseconds since the epoch at signing

  /**
   * A signed token: the secret that signed it stands for its signature, `iat`, `exp` and
   * `nbf` are in seconds since the epoch.
   */
  datatype Token = Token(secret: string, claims: Claims, iat: nat, exp: Option<nat>, nbf: Option<nat>)

  // ---------------------------------------------------------------------------
  // Numbers to text

  function EncodeAtoms(atoms: seq<nat>): (r: string)
    ensures ' ' !in r
  {
    if atoms == [] then ""
    else
      var head := NatToString(atoms[0]) + ".";
      assert forall i :: 0 <= i < |head| ==> head[i] != ' ' by {
        assert forall i :: 0 <= i < |head| - 1 ==> IsDigit(head[i]);
      }
      head + EncodeAtoms(atoms[1..])
  }

  function DecodeAtoms(s: string): Option<seq<nat>>
    decreases |s|
  {
    if s == [] then Some([])
    else
      var ds := DigitPrefix(s);
      if |ds| == 0 || |ds| == |s| || s[|ds|] != '.' then None
      else
        match DecodeAtoms(s[|ds| + 1..])
        case None => None
        case Some(rest) => Some([DigitsValue(ds)] + rest)
  }

  lemma {:induction false} AtomsRoundTrip(atoms: seq<nat>)
    ensures DecodeAtoms(EncodeAtoms(atoms)) == Some(atoms)
    decreases |atoms|
  {
    if atoms != [] {
      AtomsRoundTrip(atoms[1..]);
      AtomStep(atoms[0], atoms[1..], EncodeAtoms(atoms[1..]));
      assert [atoms[0]] + atoms[1..] == atoms;
    }
  }

  lemma AtomStep(a: nat, tail: seq<nat>, more: string)
    requires DecodeAtoms(more) == Some(tail)
    ensures DecodeAtoms(NatToString(a) + "." + more) == Some([a] + tail)
  {
    DecodeAtomsStep(NatToString(a), more);
  }

  /** A number followed by '.' decodes ahead of whatever the rest decodes to. */
  lemma DecodeAtomsStep(ds: string, more: string)
    requires |ds| > 0 && AllDigits(ds)
    ensures DecodeAtoms(ds + "." + more) ==
            match DecodeAtoms(more)
            case None => None
            case Some(rest) => Some([DigitsValue(ds)] + rest)
  {
    var s := ds + "." + more;
    assert s == ds + ("." + more);
    DigitPrefixOf(ds, "." + more);
    assert s[|ds|] == '.';
    assert s[|ds| + 1..] == more;
  }

  // ---------------------------------------------------------------------------
  // Records to numbers

  function CharCodes(s: string): (r: seq<nat>)
    ensures |r| == |s|
    ensures forall i :: 0 <= i < |s| ==> r[i] == s[i] as int
  {
    if s == [] then [] else [s[0] as int as nat] + CharCodes(s[1..])
  }

  predicate IsCharCode(n: nat) { n < 0xD800 || (0xE000 <= n < 0x11_0000) }

  function CodesToChars(ns: seq<nat>): Option<string> {
    if ns == [] then Some([])
    else if !IsCharCode(ns[0]) then None
    else
      match CodesToChars(ns[1..])
      case None => None
      case Some(rest) => Some([ns[0] as char] + rest)
  }

  lemma {:induction false} CharCodesRoundTrip(s: string)
    ensures CodesToChars(CharCodes(s)) == Some(s)
    decreases |s|
  {
    if s != [] {
      var ns := CharCodes(s);
      assert ns == [s[0] as int as nat] + CharCodes(s[1..]);
      assert ns[1..] == CharCodes(s[1..]);
      assert IsCharCode(ns[0]) && ns[0] as char == s[0];
      CharCodesRoundTrip(s[1..]);
      assert CodesToChars(ns) == Some([s[0]] + s[1..]);
      assert [s[0]] + s[1..] == s;
    }
  }

  function StrAtoms(s: string): seq<nat> { [|s|] + CharCodes(s) }

  function ParseStr(ns: seq<nat>): Option<(string, seq<nat>)> {
    if ns == [] || |ns| - 1 < ns[0] then None
    else
      match CodesToChars(ns[1..ns[0] + 1])
      case None => None
      case Some(s) => Some((s, ns[ns[0] + 1..]))
  }

  lemma StrRoundTrip(s: string, rest: seq<nat>)
    ensures ParseStr(StrAtoms(s) + rest) == Some((s, rest))
  {
    var ns := StrAtoms(s) + rest;
    assert ns[1..|s| + 1] == CharCodes(s);
    assert ns[|s| + 1..] == rest;
    CharCodesRoundTrip(s);
  }

  function OptStrAtoms(o: Option<string>): seq<nat> {
    match o
    case None => [0]
    case Some(s) => [1] + StrAtoms(s)
  }

  function ParseOptStr(ns: seq<nat>): Option<(Option<string>, seq<nat>)> {
    if ns == [] then None
    else if ns[0] == 0 then Some((None, ns[1..]))
    else if ns[0] == 1 then
      var p := ParseStr(ns[1..]);
      if p.None? then None else Some((Some(p.value.0), p.value.1))
    else None
  }

  lemma OptStrRoundTrip(o: Option<string>, rest: seq<nat>)
    ensures ParseOptStr(OptStrAtoms(o) + rest) == Some((o, rest))
  {
    match o
    case None =>
      var ns := [0] + rest;
      assert OptStrAtoms(o) + rest == ns;
      assert ns[0] == 0 && ns[1..] == rest;
    case Some(s) =>
      assert OptStrAtoms(o) + rest == [1] + (StrAtoms(s) + rest);
      PresentStrRoundTrip(s, rest);
  }

  lemma PresentStrRoundTrip(s: string, rest: seq<nat>)
    ensures ParseOptStr([1] + (StrAtoms(s) + rest)) == Some((Some(s), rest))
  {
    var ns := [1] + (StrAtoms(s) + rest);
    assert ns[0] == 1 && ns[1..] == StrAtoms(s) + rest;
    StrRoundTrip(s, rest);
  }

  function OptNatAtoms(o: Option<nat>): seq<nat> {
    match o
    case None => [0]
    case Some(n) => [1, n]
  }

  function ParseOptNat(ns: seq<nat>): Option<(Option<nat>, seq<nat>)> {
    if ns == [] then None
    else if ns[0] == 0 then Some((None, ns[1..]))
    else if ns[0] == 1 && |ns| >= 2 then Some((Some(ns[1]), ns[2..]))
    else None
  }

  lemma OptNatRoundTrip(o: Option<nat>, rest: seq<nat>)
    ensures ParseOptNat(OptNatAtoms(o) + rest) == Some((o, rest))
  {
    var ns := OptNatAtoms(o) + rest;
    match o
    case None =>
      assert ns[1..] == rest;
    case Some(n) =>
      assert ns[2..] == rest;
  }

  /** The claims' numbers, followed by `rest`. */
  function ClaimsAtoms(c: Claims, rest: seq<nat>): seq<nat> {
    OptStrAtoms(c.userId) + (OptStrAtoms(c.email) + (OptStrAtoms(c.role) +
    (OptStrAtoms(c.schoolId) + (OptStrAtoms(c.kind) + (OptNatAtoms(c.timestamp) + rest)))))
  }

  function ParseClaims(ns: seq<nat>): Option<(Claims, seq<nat>)> {
    var p1 := ParseOptStr(ns);
    if p1.None? then None else
    var p2 := ParseOptStr(p1.value.1);
    if p2.None? then None else
    var p3 := ParseOptStr(p2.value.1);
    if p3.None? then None else
    var p4 := ParseOptStr(p3.value.1);
    if p4.None? then None else
    var p5 := ParseOptStr(p4.value.1);
    if p5.None? then None else
    var p6 := ParseOptNat(p5.value.1);
    if p6.None? then None else
    Some((Claims(p1.value.0, p2.value.0, p3.value.0, p4.value.0, p5.value.0, p6.value.0), p6.value.1))
  }

  lemma ClaimsRoundTrip(c: Claims, rest: seq<nat>)
    ensures ParseClaims(ClaimsAtoms(c, rest)) == Some((c, rest))
  {
    var r5 := OptNatAtoms(c.timestamp) + rest;
    var r4 := OptStrAtoms(c.kind) + r5;
    var r3 := OptStrAtoms(c.schoolId) + r4;
    var r2 := OptStrAtoms(c.role) + r3;
    var r1 := OptStrAtoms(c.email) + r2;
    OptStrRoundTrip(c.userId, r1);
    OptStrRoundTrip(c.email, r2);
    OptStrRoundTrip(c.role, r3);
    OptStrRoundTrip(c.schoolId, r4);
    OptStrRoundTrip(c.kind, r5);
    OptNatRoundTrip(c.timestamp, rest);
  }

  function TokenAtoms(t: Token): seq<nat> {
    StrAtoms(t.secret) + ClaimsAtoms(t.claims, [t.iat] + (OptNatAtoms(t.exp) + OptNatAtoms(t.nbf)))
  }

  function ParseToken(ns: seq<nat>): Option<Token> {
    var p1 := ParseStr(ns);
    if p1.None? then None else
    var p2 := ParseClaims(p1.value.1);
    if p2.None? || p2.value.1 == [] then None else
    var iat := p2.value.1[0];
    var p3 := ParseOptNat(p2.value.1[1..]);
    if p3.None? then None else
    var p4 := ParseOptNat(p3.value.1);
    if p4.None? || p4.value.1 != [] then None else
    Some(Token(p1.value.0, p2.value.0, iat, p3.value.0, p4.value.0))
  }

  // ---------------------------------------------------------------------------
  // Tokens to text and back

  /** What `jwt.sign` hands out for a token. */
  function Encode(t: Token): (r: string)
    ensures ' ' !in r
    ensures r != ""
  {
    var atoms := TokenAtoms(t);
    assert atoms[0] == |t.secret|;
    EncodeAtoms(atoms)
  }

  /** The token a text stands for, or `None` for a malformed text. */
  function Decode(s: string): Option<Token> {
    match DecodeAtoms(s)
    case None => None
    case Some(atoms) => ParseToken(atoms)
  }

  /** Every token reads back from its text. */
  lemma DecodeEncode(t: Token)
    ensures Decode(Encode(t)) == Some(t)
  {
    var atoms := TokenAtoms(t);
    AtomsRoundTrip(atoms);
    var r3 := OptNatAtoms(t.nbf);
    var r2 := [t.iat] + (OptNatAtoms(t.exp) + r3);
    var r1 := ClaimsAtoms(t.claims, r2);
    StrRoundTrip(t.secret, r1);
    ClaimsRoundTrip(t.claims, r2);
    assert r2[1..] == OptNatAtoms(t.exp) + r3;
    OptNatRoundTrip(t.exp, r3);
    OptNatRoundTrip(t.nbf, []);
    assert r3 + [] == r3;
  }

  /** Distinct tokens have distinct texts. */
  lemma EncodeInjective(t: Token, u: Token)
    requires Encode(t) == Encode(u)
    ensures t == u
  {
    DecodeEncode(t);
    DecodeEncode(u);
  }
}
