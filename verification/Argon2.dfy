/** The encoded Argon2id hash: its printer, its parser, and the comparison built on both. */
module Argon2 {
  import opened Wrappers
  import opened Text
  import opened Base64

  const VERSION := 19
  const HASH_PARTS := 6
  const MAX_UINT8 := 0xFF
  const MAX_UINT32 := 0xFFFF_FFFF
  const MAX_INT64 := 0x7FFF_FFFF_FFFF_FFFF

  /** Memory, iterations and key length are 32-bit in the source, parallelism 8-bit. */
  datatype Params = Params(memory: nat, iterations: nat, parallelism: nat, saltLength: nat, keyLength: nat)

  const DEFAULT_PARAMS := Params(64 * 1024, 3, 0, 32, 32)

  predicate InRange(p: Params) {
    p.memory <= MAX_UINT32 && p.iterations <= MAX_UINT32 && p.parallelism <= MAX_UINT8 && p.keyLength <= MAX_UINT32
  }

  datatype HashError = InvalidHash | IncompatibleVersion | InvalidPassword

  datatype Decoded = Decoded(params: Params, salt: seq<byte>, key: seq<byte>)

  /** Argon2id of RFC 9106: password, salt, iterations, memory, parallelism, key length. */
  type Kdf = (string, seq<byte>, nat, nat, nat, nat) -> seq<byte>

  /** The one law assumed of the derivation: it yields as many bytes as it was asked for. */
  ghost predicate YieldsRequestedLength(kdf: Kdf) {
    forall password, salt, t: nat, m: nat, p: nat, length: nat :: |kdf(password, salt, t, m, p, length)| == length
  }

  function Derive(kdf: Kdf, password: string, salt: seq<byte>, p: Params): seq<byte> {
    kdf(password, salt, p.iterations, p.memory, p.parallelism, p.keyLength)
  }

  // ---------------------------------------------------------------------------------------
  // Decimals.

  function Digit(v: nat): char
    requires v < 10
  {
    ('0' as int + v) as char
  }

  predicate IsDigit(c: char) {
    '0' <= c <= '9'
  }

  function Decimal(n: nat): string {
    if n < 10 then [Digit(n)] else Decimal(n / 10) + [Digit(n % 10)]
  }

  function ValueOf(digits: string): nat
    requires forall c :: c in digits ==> IsDigit(c)
  {
    if digits == "" then 0
    else
      var last := |digits| - 1;
      assert IsDigit(digits[last]);
      ValueOf(digits[..last]) * 10 + (digits[last] as int - '0' as int)
  }

  function LeadingDigits(s: string): (n: nat)
    ensures n <= |s|
    ensures forall c :: c in s[..n] ==> IsDigit(c)
    ensures n < |s| ==> !IsDigit(s[n])
  {
    if s != "" && IsDigit(s[0]) then
      var n := 1 + LeadingDigits(s[1..]);
      assert s[..n] == [s[0]] + s[1..][..n - 1];
      n
    else 0
  }

  lemma {:induction false} DecimalValue(n: nat)
    ensures forall c :: c in Decimal(n) ==> IsDigit(c)
    ensures ValueOf(Decimal(n)) == n && |Decimal(n)| > 0
  {
    if n >= 10 {
      DecimalValue(n / 10);
      var d := Decimal(n);
      assert d[..|d| - 1] == Decimal(n / 10);
    }
  }

  lemma {:induction false} LeadingDigitsEnd(digits: string, rest: string)
    requires forall c :: c in digits ==> IsDigit(c)
    requires rest != "" ==> !IsDigit(rest[0])
    ensures LeadingDigits(digits + rest) == |digits|
  {
    if digits == "" {
      assert digits + rest == rest;
    } else {
      assert digits[0] in digits;
      LeadingDigitsEnd(digits[1..], rest);
      assert (digits + rest)[1..] == digits[1..] + rest;
    }
  }

  // ---------------------------------------------------------------------------------------
  // The scanner: literals must match, verbs skip leading spaces, trailing input is ignored.

  function SkipSpaces(s: string): string {
    if s != "" && s[0] in " \t\r" then SkipSpaces(s[1..]) else s
  }

  function ScanLiteral(s: string, literal: string): Option<string> {
    if literal <= s then Some(s[|literal|..]) else None
  }

  /** An unsigned decimal that fits the machine width, and what follows it. */
  function ScanUnsigned(s: string, max: nat): Option<(nat, string)> {
    var body := SkipSpaces(s);
    var n := LeadingDigits(body);
    if n == 0 || ValueOf(body[..n]) > max then None else Some((ValueOf(body[..n]), body[n..]))
  }

  /** A signed decimal: one optional sign is accepted before the digits. */
  function ScanSigned(s: string): Option<(int, string)> {
    var body := SkipSpaces(s);
    var negative := body != "" && body[0] == '-';
    var unsigned := if body != "" && (body[0] == '-' || body[0] == '+') then body[1..] else body;
    var n := LeadingDigits(unsigned);
    if n == 0 || ValueOf(unsigned[..n]) > (if negative then MAX_INT64 + 1 else MAX_INT64) then None
    else
      var magnitude: int := ValueOf(unsigned[..n]);
      Some((if negative then -magnitude else magnitude, unsigned[n..]))
  }

  function ScanField(s: string, literal: string, max: nat): Option<(nat, string)> {
    match ScanLiteral(s, literal)
    case None => None
    case Some(rest) => ScanUnsigned(rest, max)
  }

  function ScanVersion(s: string): Option<int> {
    match ScanLiteral(s, "v=")
    case None => None
    case Some(rest) => if ScanSigned(rest).Some? then Some(ScanSigned(rest).value.0) else None
  }

  function ScanParams(s: string): Option<(nat, nat, nat)> {
    match ScanField(s, "m=", MAX_UINT32)
    case None => None
    case Some((memory, s1)) =>
      match ScanField(s1, ",t=", MAX_UINT32)
      case None => None
      case Some((iterations, s2)) =>
        match ScanField(s2, ",p=", MAX_UINT8)
        case None => None
        case Some((parallelism, _)) => Some((memory, iterations, parallelism))
  }

  // ---------------------------------------------------------------------------------------
  // Printer, parser, comparison.

  function VersionField(): string {
    "v=" + Decimal(VERSION)
  }

  function ParamsField(p: Params): string {
    "m=" + Decimal(p.memory) + ",t=" + Decimal(p.iterations) + ",p=" + Decimal(p.parallelism)
  }

  function Print(d: Decoded): string {
    var binary := Encode(d.salt) + "$" + Encode(d.key);
    "$" + ("argon2id" + "$" + (VersionField() + "$" + (ParamsField(d.params) + "$" + binary)))
  }

  /** The parameters with the parallelism settled: the host's CPU count when it was left at zero. */
  function Settle(params: Params, cpus: nat): Params {
    if params.parallelism != 0 then params
    else params.(parallelism := if cpus > MAX_UINT8 then MAX_UINT8 else cpus)
  }

  /** `salt` is what the random source filled in; the host's CPU count is used when the
      parallelism is left at zero, clamped to eight bits. */
  function Generate(kdf: Kdf, password: string, params: Params, salt: seq<byte>, cpus: nat): string
    requires |salt| == params.saltLength
  {
    var p := Settle(params, cpus);
    Print(Decoded(p, salt, Derive(kdf, password, salt, p)))
  }

  /** The generating routine: settles the parallelism, derives, prints. What it returns decodes to
      the salt it was given and the key of the password. */
  method GenerateHash(kdf: Kdf, password: string, params: Params, salt: seq<byte>, cpus: nat)
    returns (encoded: string, ghost used: Params)
    requires YieldsRequestedLength(kdf) && InRange(params) && |salt| == params.saltLength
    ensures encoded == Generate(kdf, password, params, salt, cpus)
    ensures DecodeHash(encoded)
            == Ok(Decoded(used, salt,
                          kdf(password, salt, params.iterations, params.memory, used.parallelism, params.keyLength)))
    ensures used == params.(parallelism := used.parallelism)
    ensures used.parallelism
            == if params.parallelism != 0 then params.parallelism else if cpus <= 255 then cpus else 255
  {
    var settled := params;
    if settled.parallelism == 0 {
      var lanes := cpus;
      if lanes > MAX_UINT8 {
        lanes := MAX_UINT8;
      }
      settled := settled.(parallelism := lanes);
    }
    used := settled;
    var hash := Derive(kdf, password, salt, settled);
    RoundTrip(Decoded(settled, salt, hash));
    encoded := Print(Decoded(settled, salt, hash));
  }

  function DecodeHash(encoded: string): Result<Decoded, HashError> {
    var values := Split(encoded, '$');
    if |values| != HASH_PARTS then Err(InvalidHash)
    else match ScanVersion(values[2])
      case None => Err(InvalidHash)
      case Some(version) =>
        if version != VERSION then Err(IncompatibleVersion)
        else match (ScanParams(values[3]), DecodeStrict(values[4]), DecodeStrict(values[5]))
          case (Some((memory, iterations, parallelism)), Some(salt), Some(key)) =>
            if |key| > MAX_UINT32 then Err(InvalidHash)
            else Ok(Decoded(Params(memory, iterations, parallelism, |salt|, |key|), salt, key))
          case _ => Err(InvalidHash)
  }

  function Compare(kdf: Kdf, password: string, encoded: string): Result<(), HashError> {
    match DecodeHash(encoded)
    case Err(e) => Err(e)
    case Ok(d) => if Derive(kdf, password, d.salt, d.params) == d.key then Ok(()) else Err(InvalidPassword)
  }

  // ---------------------------------------------------------------------------------------
  // The printer and the parser undo each other.

  lemma ScanPrinted(literal: string, n: nat, max: nat, rest: string)
    requires rest != "" ==> !IsDigit(rest[0])
    ensures ScanField(literal + Decimal(n) + rest, literal, max) == if n <= max then Some((n, rest)) else None
  {
    DecimalValue(n);
    var s := Decimal(n) + rest;
    assert (literal + Decimal(n) + rest)[|literal|..] == s;
    LeadingDigitsEnd(Decimal(n), rest);
    assert s[0] == Decimal(n)[0] && Decimal(n)[0] in Decimal(n);
    assert SkipSpaces(s) == s;
    assert s[..|Decimal(n)|] == Decimal(n) && s[|Decimal(n)|..] == rest;
  }

  lemma ScanSignedPrinted(n: nat)
    requires n <= MAX_INT64
    ensures ScanSigned(Decimal(n)) == Some((n, ""))
  {
    var s := Decimal(n);
    DecimalValue(n);
    assert s + "" == s && s[..|s|] == s && s[|s|..] == "";
    LeadingDigitsEnd(s, "");
    assert s[0] in s;
    assert SkipSpaces(s) == s;
  }

  lemma ScanPrintedVersion()
    ensures ScanVersion(VersionField()) == Some(VERSION)
  {
    var s := Decimal(VERSION);
    ScanSignedPrinted(VERSION);
    assert "v=" <= "v=" + s && ("v=" + s)[2..] == s;
  }

  lemma ScanPrintedParams(p: Params)
    requires InRange(p)
    ensures ScanParams(ParamsField(p)) == Some((p.memory, p.iterations, p.parallelism))
  {
    var third := ",p=" + Decimal(p.parallelism);
    var second := ",t=" + Decimal(p.iterations) + third;
    assert third[0] == ',' && second[0] == ',';
    assert ParamsField(p) == "m=" + Decimal(p.memory) + second;
    ScanPrinted("m=", p.memory, MAX_UINT32, second);
    ScanPrinted(",t=", p.iterations, MAX_UINT32, third);
    assert ",p=" + Decimal(p.parallelism) + "" == third;
    ScanPrinted(",p=", p.parallelism, MAX_UINT8, "");
  }

  function Fields(d: Decoded): seq<string> {
    ["", "argon2id", VersionField(), ParamsField(d.params), Encode(d.salt), Encode(d.key)]
  }

  lemma JoinMore(first: string, rest: seq<string>)
    requires |rest| > 0
    ensures Join([first] + rest, '$') == first + "$" + Join(rest, '$')
  {
    assert ([first] + rest)[1..] == rest;
  }

  lemma JoinSix(a: string, b: string, c: string, d: string, e: string, f: string)
    ensures Join([a, b, c, d, e, f], '$') == a + "$" + (b + "$" + (c + "$" + (d + "$" + (e + "$" + f))))
  {
    JoinMore(e, [f]);
    JoinMore(d, [e, f]);
    JoinMore(c, [d, e, f]);
    JoinMore(b, [c, d, e, f]);
    JoinMore(a, [b, c, d, e, f]);
    assert [a] + [b, c, d, e, f] == [a, b, c, d, e, f] && [b] + [c, d, e, f] == [b, c, d, e, f];
    assert [c] + [d, e, f] == [c, d, e, f] && [d] + [e, f] == [d, e, f] && [e] + [f] == [e, f];
  }

  lemma DecimalHasNoDollar(n: nat)
    ensures '$' !in Decimal(n)
  {
    DecimalValue(n);
  }

  lemma EncodedHasNoDollar(bytes: seq<byte>)
    ensures '$' !in Encode(bytes)
  {
    EncodedIsSymbols(bytes);
  }

  lemma NoFieldHoldsDollar(d: Decoded)
    ensures forall part :: part in Fields(d) ==> '$' !in part
  {
    DecimalHasNoDollar(VERSION);
    DecimalHasNoDollar(d.params.memory);
    DecimalHasNoDollar(d.params.iterations);
    DecimalHasNoDollar(d.params.parallelism);
    EncodedHasNoDollar(d.salt);
    EncodedHasNoDollar(d.key);
    assert '$' !in "m=" + Decimal(d.params.memory);
    assert '$' !in "m=" + Decimal(d.params.memory) + ",t=" + Decimal(d.params.iterations);
  }

  /** A hash whose fields are within machine range and whose lengths are those of its parts. */
  predicate WellFormed(d: Decoded) {
    InRange(d.params) && |d.salt| == d.params.saltLength && |d.key| == d.params.keyLength
  }

  /** The first two fields are never looked at; the other four determine the result. */
  lemma ParseFields(d: Decoded, lead: string, algorithm: string)
    requires WellFormed(d) && '$' !in lead && '$' !in algorithm
    ensures DecodeHash(Join([lead, algorithm] + Fields(d)[2..], '$')) == Ok(d)
  {
    var fields := [lead, algorithm] + Fields(d)[2..];
    NoFieldHoldsDollar(d);
    forall part | part in fields ensures '$' !in part {
      if part != lead && part != algorithm { assert part in Fields(d); }
    }
    SplitJoin(fields, '$');
    ScanPrintedVersion();
    ScanPrintedParams(d.params);
    DecodeInvertsEncode("", d.salt);
    DecodeInvertsEncode("", d.key);
  }

  lemma RoundTrip(d: Decoded)
    requires WellFormed(d)
    ensures DecodeHash(Print(d)) == Ok(d)
  {
    ParseFields(d, "", "argon2id");
    assert ["", "argon2id"] + Fields(d)[2..] == Fields(d);
    JoinSix("", "argon2id", VersionField(), ParamsField(d.params), Encode(d.salt), Encode(d.key));
    assert "" + "$" == "$";
  }

  /** Whatever the parser accepts is well formed, so printing it again parses to the same thing;
      and its two binary fields have a single spelling up to line breaks. */
  lemma AcceptedHashIsCanonical(encoded: string, d: Decoded)
    requires DecodeHash(encoded) == Ok(d)
    ensures WellFormed(d) && DecodeHash(Print(d)) == Ok(d)
    ensures StripLineBreaks(Split(encoded, '$')[4]) == Encode(d.salt)
    ensures StripLineBreaks(Split(encoded, '$')[5]) == Encode(d.key)
  {
    RoundTrip(d);
    DecodeInvertsEncode(Split(encoded, '$')[4], d.salt);
    DecodeInvertsEncode(Split(encoded, '$')[5], d.key);
  }

  /** A generated hash decodes to its salt, its parameters and the key derived from the password, and
      another password matches it exactly when the same derivation gives the same key; all six
      arguments of the derivation are the source's, and the CPU count is that of the host that
      generated the hash. */
  lemma CompareGenerated(kdf: Kdf, password: string, attempt: string, params: Params, salt: seq<byte>, cpus: nat)
    returns (used: Params)
    requires YieldsRequestedLength(kdf) && InRange(params) && |salt| == params.saltLength
    ensures used == params.(parallelism := used.parallelism)
    ensures used.parallelism
            == if params.parallelism != 0 then params.parallelism else if cpus <= 255 then cpus else 255
    ensures var key := kdf(password, salt, params.iterations, params.memory, used.parallelism, params.keyLength);
            var other := kdf(attempt, salt, params.iterations, params.memory, used.parallelism, params.keyLength);
            && DecodeHash(Generate(kdf, password, params, salt, cpus)) == Ok(Decoded(used, salt, key))
            && Compare(kdf, attempt, Generate(kdf, password, params, salt, cpus))
               == if other == key then Ok(()) else Err(InvalidPassword)
  {
    used := Settle(params, cpus);
    RoundTrip(Decoded(used, salt, Derive(kdf, password, salt, used)));
  }

  /** Any text, decoded or not: the answer of a comparison. */
  lemma CompareAnswers(kdf: Kdf, attempt: string, encoded: string)
    ensures match DecodeHash(encoded)
            case Err(e) => Compare(kdf, attempt, encoded) == Err(e)
            case Ok(Decoded(p, salt, key)) =>
              Compare(kdf, attempt, encoded)
              == if kdf(attempt, salt, p.iterations, p.memory, p.parallelism, p.keyLength) == key then Ok(())
                 else Err(InvalidPassword)
  {
  }

  // ---------------------------------------------------------------------------------------
  // What the parser refuses, and what it lets pass.

  /** Only six fields make a hash. */
  lemma FieldCountIsChecked(parts: seq<string>)
    requires |parts| > 0 && |parts| != 6 && forall part :: part in parts ==> '$' !in part
    ensures DecodeHash(Join(parts, '$')) == Err(InvalidHash)
  {
    SplitJoin(parts, '$');
  }

  /** A version other than 19 is named as such, whatever the other fields hold; a field that is no
      version at all is an invalid hash. */
  lemma VersionIsChecked(n: nat, parts: seq<string>)
    requires |parts| == 6 && forall part :: part in parts ==> '$' !in part
    requires n <= MAX_INT64 && parts[2] == "v=" + Decimal(n)
    ensures n != 19 ==> DecodeHash(Join(parts, '$')) == Err(IncompatibleVersion)
    ensures n == 19 ==> DecodeHash(Join(parts, '$')) != Err(IncompatibleVersion)
  {
    SplitJoin(parts, '$');
    ScanSignedPrinted(n);
    assert "v=" <= parts[2] && parts[2][2..] == Decimal(n);
  }

  /** A parameter that does not fit its machine width is refused. */
  lemma WidthsAreChecked(memory: nat, iterations: nat, parallelism: nat)
    ensures var field := "m=" + Decimal(memory) + (",t=" + Decimal(iterations) + (",p=" + Decimal(parallelism)));
            ScanParams(field)
            == if memory < 0x1_0000_0000 && iterations < 0x1_0000_0000 && parallelism < 0x100
               then Some((memory, iterations, parallelism)) else None
  {
    var third := ",p=" + Decimal(parallelism);
    var second := ",t=" + Decimal(iterations) + third;
    assert third[0] == ',' && second[0] == ',';
    ScanPrinted("m=", memory, MAX_UINT32, second);
    ScanPrinted(",t=", iterations, MAX_UINT32, third);
    assert ",p=" + Decimal(parallelism) + "" == third;
    ScanPrinted(",p=", parallelism, MAX_UINT8, "");
  }

  /** Blanks before a number are skipped. */
  lemma BlanksAreSkipped(c: char, s: string, max: nat)
    requires c in " \t\r"
    ensures ScanUnsigned([c] + s, max) == ScanUnsigned(s, max) && ScanSigned([c] + s) == ScanSigned(s)
  {
    assert ([c] + s)[1..] == s;
    assert SkipSpaces([c] + s) == SkipSpaces(s);
  }

  /** The version may carry a sign; a negative one is a number, though never the right one. */
  lemma SignsAreRead(n: nat)
    requires n <= MAX_INT64
    ensures ScanSigned("+" + Decimal(n)) == Some((n, ""))
    ensures ScanSigned("-" + Decimal(n)) == Some((-(n as int), ""))
  {
    var d := Decimal(n);
    DecimalValue(n);
    LeadingDigitsEnd(d, "");
    assert d + "" == d && d[..|d|] == d && d[|d|..] == "";
    SignIsOneCharacter('+', d);
    SignIsOneCharacter('-', d);
  }

  lemma SignIsOneCharacter(sign: char, digits: string)
    requires sign == '+' || sign == '-'
    ensures SkipSpaces([sign] + digits) == [sign] + digits && ([sign] + digits)[1..] == digits
  {
  }

  lemma Regroup(a: string, b: string, c: string)
    ensures a + b + c == a + (b + c)
  {
  }

  /** The text form itself. */
  lemma PrintedForm(d: Decoded)
    ensures Print(d) == "$argon2id$v=19$" + ("m=" + Decimal(d.params.memory) + ",t=" + Decimal(d.params.iterations)
                                             + ",p=" + Decimal(d.params.parallelism)
                                             + ("$" + Encode(d.salt) + "$" + Encode(d.key)))
  {
    assert Decimal(19) == "19";
    assert VersionField() == "v=19";
    var binary := Encode(d.salt) + "$" + Encode(d.key);
    Regroup("$", Encode(d.salt), "$" + Encode(d.key));
    Regroup(Encode(d.salt), "$", Encode(d.key));
    Regroup("$" + Encode(d.salt), "$", Encode(d.key));
    assert "$" + binary == "$" + Encode(d.salt) + "$" + Encode(d.key);
    Regroup(ParamsField(d.params), "$", binary);
    var tail := ParamsField(d.params) + ("$" + binary);
    Regroup("v=19", "$", tail);
    Regroup("argon2id", "$", "v=19" + "$" + tail);
    Regroup("$", "argon2id" + "$", "v=19" + "$" + tail);
    Regroup("$argon2id$", "v=19$", tail);
  }
}
