/**
 * Signed GET URLs: minting (src/drivers/signing.py, `presign_get` in src/drivers/local_fs.py,
 * src/routers/storage/create_signed_url.py) and serving (src/routers/files/signed_get.py). The MAC is a function of
 * which only its alphabet is known; where different messages must have different MACs, that is a hypothesis.
 */
module SignedUrl {
  import opened Strings
  import opened Options
  import opened KeyGrammar

  const MAX_EXPIRES_IN := 86400

  // ---- Decimal numbers -----------------------------------------------------

  function DigitOf(d: nat): (c: char)
    requires d < 10
    ensures Digit(c) && DigitValue(c) == d
  {
    ('0' as int + d) as char
  }

  function DigitValue(c: char): nat
    requires Digit(c)
  {
    c as int - '0' as int
  }

  /** Python's `str(n)`. */
  function Decimal(n: int): (s: string)
    decreases if n < 0 then 1 else 0, n
  {
    if n < 0 then "-" + Decimal(0 - n) else if n < 10 then [DigitOf(n)] else Decimal(n / 10) + [DigitOf(n % 10)]
  }

  function ParseDigits(s: string): Option<nat>
  {
    if s == "" || !Digit(Last(s)) then None
    else if |s| == 1 then Some(DigitValue(s[0]))
    else
      var front := ParseDigits(s[..|s| - 1]);
      if front.None? then None else Some(front.value * 10 + DigitValue(Last(s)))
  }

  /** `int(text)` on an optional minus sign and digits. */
  function ParseInt(s: string): Option<int>
  {
    if s != "" && s[0] == '-' then
      var digits := ParseDigits(s[1..]);
      if digits.None? then None else Some(0 - digits.value as int)
    else
      var digits := ParseDigits(s);
      if digits.None? then None else Some(digits.value)
  }

  lemma {:induction false} ParseOfDigits(n: nat)
    ensures ParseDigits(Decimal(n)) == Some(n)
    ensures forall i :: 0 <= i < |Decimal(n)| ==> Digit(Decimal(n)[i])
    ensures Decimal(n) != ""
  {
    if n >= 10 {
      ParseOfDigits(n / 10);
      var s := Decimal(n);
      assert s[..|s| - 1] == Decimal(n / 10) && Last(s) == DigitOf(n % 10);
    }
  }

  lemma ParseOfNegative(n: nat)
    requires n > 0
    ensures Decimal(0 - n) == "-" + Decimal(n)
    ensures Decimal(0 - n)[1..] == Decimal(n)
  {
    hide Decimal;
    NegativeUnfolds(n);
    assert ("-" + Decimal(n))[1..] == Decimal(n);
  }

  lemma NegativeUnfolds(n: nat)
    requires n > 0
    ensures Decimal(0 - n) == "-" + Decimal(n)
  {
  }

  /** Decimal rendering is read back, hence injective, and uses only digits and the minus sign. */
  lemma ParseOfDecimal(n: int)
    ensures ParseInt(Decimal(n)) == Some(n)
    ensures forall i :: 0 <= i < |Decimal(n)| ==> Digit(Decimal(n)[i]) || Decimal(n)[i] == '-'
  {
    hide Decimal, ParseDigits;
    if n < 0 {
      ParseOfDigits(-n);
      ParseOfNegative(-n);
    } else {
      ParseOfDigits(n);
      assert Digit(Decimal(n)[0]);
    }
  }

  function Pow10(n: nat): nat { if n == 0 then 1 else 10 * Pow10(n - 1) }

  /** The number a row of decimal digits stands for, by place value. */
  function Worth(digits: string): int
  {
    if digits == "" then 0 else (digits[0] as int - 48) * Pow10(|digits| - 1) + Worth(digits[1..])
  }

  lemma {:induction false} WorthSnoc(digits: string, last: char)
    ensures Worth(digits + [last]) == 10 * Worth(digits) + (last as int - 48)
  {
    if digits == "" {
      assert digits + [last] == [last];
      assert Worth("") == 0 && Pow10(0) == 1;
    } else {
      WorthSnoc(digits[1..], last);
      assert (digits + [last])[1..] == digits[1..] + [last];
      var d, p := digits[0] as int - 48, Pow10(|digits| - 1);
      assert Pow10(|digits|) == 10 * p;
      assert d * (10 * p) == 10 * (d * p);
    }
  }

  /** Decimal rendering is the usual one: a sign, or digits without leading zeros that are worth the number. */
  lemma {:induction false} DecimalExact(n: int)
    ensures n < 0 ==> Decimal(n) == "-" + Decimal(-n)
    ensures n >= 0 ==> Decimal(n) != "" && Worth(Decimal(n)) == n
    ensures n >= 0 ==> forall i :: 0 <= i < |Decimal(n)| ==> '0' <= Decimal(n)[i] <= '9'
    ensures n >= 0 && Decimal(n)[0] == '0' ==> n == 0 && Decimal(n) == "0"
    decreases if n < 0 then 1 else 0, n
  {
    if n >= 10 {
      DecimalExact(n / 10);
      WorthSnoc(Decimal(n / 10), DigitOf(n % 10));
      assert Decimal(n)[0] == Decimal(n / 10)[0];
    } else if n >= 0 {
      WorthSnoc("", DigitOf(n));
      assert "" + [DigitOf(n)] == [DigitOf(n)];
    }
  }

  // ---- Percent-encoding (sections 2.1 and 2.3 of RFC 3986) ------------------

  /** What `quote` leaves alone: unreserved characters and the slash. */
  predicate Safe(c: char)
  {
    Lower(c) || 'A' <= c <= 'Z' || Digit(c) || c == '_' || c == '.' || c == '-' || c == '~' || c == '/'
  }

  predicate HexDigit(c: char) { Digit(c) || 'A' <= c <= 'F' || 'a' <= c <= 'f' }

  function HexValue(c: char): (v: nat)
    requires HexDigit(c)
    ensures v < 16
  {
    if Digit(c) then c as int - '0' as int
    else if c <= 'F' then c as int - 'A' as int + 10
    else c as int - 'a' as int + 10
  }

  function HexOf(v: nat): (c: char)
    requires v < 16
    ensures HexDigit(c) && HexValue(c) == v
  {
    if v < 10 then ('0' as int + v) as char else ('A' as int + v - 10) as char
  }

  predicate Ascii(s: string) { forall i :: 0 <= i < |s| ==> s[i] as int < 128 }

  function QuoteChar(c: char): string
    requires c as int < 128
  {
    if Safe(c) then [c] else ['%', HexOf(c as int / 16), HexOf(c as int % 16)]
  }

  /** `urllib.parse.quote` on ASCII text. */
  function Quote(s: string): string
    requires Ascii(s)
  {
    if s == "" then "" else QuoteChar(s[0]) + Quote(s[1..])
  }

  /** Percent-decoding of a request path, for escapes of ASCII characters. */
  function Unquote(s: string): string
  {
    if s == "" then ""
    else if s[0] == '%' && |s| >= 3 && HexDigit(s[1]) && HexDigit(s[2]) && HexValue(s[1]) < 8
    then [(HexValue(s[1]) * 16 + HexValue(s[2])) as char] + Unquote(s[3..])
    else [s[0]] + Unquote(s[1..])
  }

  lemma {:induction false} UnquoteOfQuote(s: string)
    requires Ascii(s)
    ensures Unquote(Quote(s)) == s
  {
    if s != "" {
      UnquoteOfQuote(s[1..]);
      var first, rest := QuoteChar(s[0]), Quote(s[1..]);
      assert (first + rest)[|first|..] == rest;
      assert [s[0]] + s[1..] == s;
    }
  }

  lemma {:induction false} UnquotePlain(plain: string, rest: string)
    requires '%' !in plain
    ensures Unquote(plain + rest) == plain + Unquote(rest)
  {
    if plain == "" {
      assert plain + rest == rest;
    } else {
      UnquotePlain(plain[1..], rest);
      assert (plain + rest)[1..] == plain[1..] + rest;
      assert [plain[0]] + (plain[1..] + Unquote(rest)) == plain + Unquote(rest);
    }
  }

  lemma {:induction false} QuoteAlphabet(s: string)
    requires Ascii(s)
    ensures forall i :: 0 <= i < |Quote(s)| ==> Safe(Quote(s)[i]) || Quote(s)[i] == '%'
  {
    if s != "" {
      QuoteAlphabet(s[1..]);
      QuoteCharAlphabet(s[0]);
    }
  }

  lemma QuoteCharAlphabet(c: char)
    requires c as int < 128
    ensures forall i :: 0 <= i < |QuoteChar(c)| ==> Safe(QuoteChar(c)[i]) || QuoteChar(c)[i] == '%'
  {
  }

  /** Quoting changes nothing exactly when every character is safe. */
  lemma {:induction false} QuoteIdentity(s: string)
    requires Ascii(s)
    ensures |Quote(s)| >= |s|
    ensures Quote(s) == s <==> forall i :: 0 <= i < |s| ==> Safe(s[i])
  {
    if s != "" {
      QuoteIdentity(s[1..]);
      assert s == [s[0]] + s[1..];
      if Safe(s[0]) {
        assert Quote(s)[1..] == Quote(s[1..]);
        assert (forall i :: 0 <= i < |s[1..]| ==> Safe(s[1..][i])) <==> forall i :: 1 <= i < |s| ==> Safe(s[i]) by {
          assert forall i :: 1 <= i < |s| ==> s[i] == s[1..][i - 1];
        }
      } else {
        assert |Quote(s)| > |s|;
      }
    }
  }

  lemma {:induction false} QuoteConcat(a: string, b: string)
    requires Ascii(a) && Ascii(b)
    ensures Ascii(a + b) && Quote(a + b) == Quote(a) + Quote(b)
  {
    if a == "" {
      assert a + b == b;
    } else {
      QuoteConcat(a[1..], b);
      assert (a + b)[1..] == a[1..] + b;
      assert QuoteChar(a[0]) + (Quote(a[1..]) + Quote(b)) == Quote(a) + Quote(b);
    }
  }

  /**
   * Encoding goes character by character: letters, digits, `_`, `.`, `-`, `~` and `/` stay, and any other character
   * becomes a percent sign and two upper-case hexadecimal digits of its code.
   */
  lemma QuoteExact(before: string, c: char, after: string)
    requires Ascii(before) && c as int < 128 && Ascii(after)
    ensures Ascii(before + [c] + after)
    ensures var safe := 'a' <= c <= 'z' || 'A' <= c <= 'Z' || '0' <= c <= '9' || c in "_.-~/";
            var digits := "0123456789ABCDEF";
            Quote(before + [c] + after) ==
            Quote(before) + (if safe then [c] else ['%', digits[c as int / 16], digits[c as int % 16]]) + Quote(after)
  {
    hide Quote;
    QuoteConcat(before, [c]);
    QuoteConcat(before + [c], after);
    QuoteOne(c);
    HexTable(c as int / 16);
    HexTable(c as int % 16);
  }

  lemma QuoteOne(c: char)
    requires c as int < 128
    ensures Quote([c]) == QuoteChar(c)
  {
    assert [c][1..] == "";
  }

  lemma HexTable(v: nat)
    requires v < 16
    ensures HexOf(v) == "0123456789ABCDEF"[v]
  {
  }

  // ---- Signing -------------------------------------------------------------

  /** The hexadecimal HMAC of a message under a secret. */
  type Mac = string -> string

  function Message(bucket: string, key: string, exp: int): string { bucket + "/" + key + ":" + Decimal(exp) }

  function Sign(mac: Mac, bucket: string, key: string, exp: int): string { mac(Message(bucket, key, exp)) }

  /** `compare_digest` raises on text outside ASCII. */
  datatype Check = Passes | Fails | Raises

  function Verify(mac: Mac, bucket: string, key: string, exp: int, sig: string, now: int): Check
  {
    if exp <= now then Fails
    else if !Ascii(sig) then Raises
    else if sig == Sign(mac, bucket, key, exp) then Passes
    else Fails
  }

  lemma SamePlace(x: string, y: string, c: char, xs: string, ys: string)
    requires c !in x && c !in y && x + [c] + xs == y + [c] + ys
    ensures x == y && xs == ys
  {
    var s, t := x + [c] + xs, y + [c] + ys;
    assert s[|x|] == c && t[|y|] == c;
    assert forall i :: 0 <= i < |x| ==> s[i] == x[i];
    assert forall i :: 0 <= i < |y| ==> t[i] == y[i];
    assert |x| == |y|;
    assert s[..|x|] == x && t[..|y|] == y;
    assert s[|x| + 1..] == xs && t[|y| + 1..] == ys;
  }

  lemma SameLastPlace(x: string, y: string, c: char, xs: string, ys: string)
    requires c !in xs && c !in ys && x + [c] + xs == y + [c] + ys
    ensures x == y && xs == ys
  {
    var s, t := x + [c] + xs, y + [c] + ys;
    assert s[|x|] == c && t[|y|] == c;
    assert forall i :: |x| < i < |s| ==> s[i] == xs[i - |x| - 1];
    assert forall i :: |y| < i < |t| ==> t[i] == ys[i - |y| - 1];
    assert |x| == |y|;
    assert s[..|x|] == x && t[..|y|] == y;
    assert s[|x| + 1..] == xs && t[|y| + 1..] == ys;
  }

  /** The signed message determines bucket, key and expiry, whatever characters the key has. */
  lemma MessageInjective(b1: string, k1: string, e1: int, b2: string, k2: string, e2: int)
    requires '/' !in b1 && '/' !in b2
    requires Message(b1, k1, e1) == Message(b2, k2, e2)
    ensures b1 == b2 && k1 == k2 && e1 == e2
  {
    hide Decimal;
    var d1, d2 := Decimal(e1), Decimal(e2);
    ParseOfDecimal(e1);
    ParseOfDecimal(e2);
    assert Message(b1, k1, e1) == b1 + ['/'] + (k1 + ":" + d1);
    assert Message(b2, k2, e2) == b2 + ['/'] + (k2 + ":" + d2);
    SamePlace(b1, b2, '/', k1 + ":" + d1, k2 + ":" + d2);
    assert k1 + ":" + d1 == k1 + [':'] + d1 && k2 + ":" + d2 == k2 + [':'] + d2;
    SameLastPlace(k1, k2, ':', d1, d2);
  }

  /** A bucket with a slash would not be pinned down. */
  lemma SlashInBucketConfusesMessages()
    ensures Message("a/b", "c", 0) == Message("a", "b/c", 0)
  {
    hide Decimal;
    var d := Decimal(0);
    assert "a/b" + "/" + "c" + ":" + d == "a" + "/" + "b/c" + ":" + d;
  }

  // ---- Minting -------------------------------------------------------------

  /** `public_base` is taken after its trailing slashes have been stripped. */
  datatype Signer = Signer(buckets: seq<string>, publicBase: string, mac: Mac)

  datatype Minted = Url(base: string, target: string, exp: int) | Refused(rule: Option<Rule>)

  const FILES_SIGNED := "/files-signed/"
  const INTERNAL_FILES := "/internal-files/"

  function Target(bucket: string, key: string, exp: int, sig: string): string
    requires Ascii(key)
  {
    FILES_SIGNED + bucket + "/" + Quote(key) + "?" + ("exp=" + Decimal(exp) + "&sig=" + sig)
  }

  /** `create_signed_url`: keys may contain `@`; the lifetime is bounded by the request model. */
  function CreateSignedUrl(signer: Signer, bucket: string, key: string, expiresIn: int, now: int): Minted
  {
    var verdict := Validate(bucket, key, true, signer.buckets);
    if !(0 < expiresIn <= MAX_EXPIRES_IN) then Refused(None)
    else if verdict.Rejected? then Refused(Some(verdict.rule))
    else
      ValidKeyIsAscii(bucket, key, true, signer.buckets);
      Url(signer.publicBase, Target(bucket, key, now + expiresIn, Sign(signer.mac, bucket, key, now + expiresIn)),
          now + expiresIn)
  }

  lemma BucketAlphabet(bucket: string, buckets: seq<string>)
    requires ValidateBucket(bucket, buckets).Accepted?
    ensures bucket != "" && forall i :: 0 <= i < |bucket| ==> BucketChar(bucket[i]) || bucket[i] == '\n'
    ensures '/' !in bucket && '%' !in bucket
  {
    var body := BeforeDollar(bucket);
    assert forall i :: 0 <= i < |body| ==> bucket[i] == body[i];
  }

  lemma ValidKeyIsAscii(bucket: string, key: string, allowAt: bool, buckets: seq<string>)
    requires Validate(bucket, key, allowAt, buckets).Accepted?
    ensures Ascii(key)
    ensures forall i :: 0 <= i < |key| ==> Safe(key[i]) || key[i] == '@'
  {
    hide ValidateKey, ValidateBucket, GoodSegments, Split, Join;
    AcceptedIsInLanguage(key, allowAt);
    GoodCharsOnly(Split(key, '/'), allowAt, key);
  }

  // ---- Serving -------------------------------------------------------------

  datatype Request = Request(bucket: string, key: string, exp: int, sig: string)

  datatype Served = Redirect(accel: string) | BadRequest(rule: Rule) | Forbidden | InternalError

  /** `signed_get`, as deployed: grammar first (without `@`), then expiry and signature, then the internal redirect. */
  function SignedGet(signer: Signer, r: Request, now: int): Served
  {
    var verdict := Validate(r.bucket, r.key, false, signer.buckets);
    if verdict.Rejected? then BadRequest(verdict.rule)
    else
      match Verify(signer.mac, r.bucket, r.key, r.exp, r.sig, now)
      case Fails => Forbidden
      case Raises => InternalError
      case Passes =>
        ValidKeyIsAscii(r.bucket, r.key, false, signer.buckets);
        Redirect(INTERNAL_FILES + r.bucket + "/" + Quote(r.key))
  }

  /** The value of the last parameter of this name. */
  function Param(parts: seq<string>, name: string): Option<string>
  {
    if parts == [] then None
    else if StartsWith(Last(parts), name + "=") then Some(Last(parts)[|name| + 1..])
    else Param(parts[..|parts| - 1], name)
  }

  /** The bucket and the key of a decoded path below `root`. */
  function SplitPath(root: string, path: string): Option<(string, string)>
  {
    if !StartsWith(path, root) then None
    else
      var rest := path[|root|..];
      var i := IndexOf(rest, '/');
      if i == 0 || i == |rest| then None else Some((rest[..i], rest[i + 1..]))
  }

  /** Routing of a request target: the path is decoded, the bucket is its first segment, the key all the rest. */
  function ParseTarget(target: string): Option<Request>
  {
    var i := IndexOf(target, '?');
    var place := SplitPath(FILES_SIGNED, Unquote(target[..i]));
    if place.None? || i == |target| then None
    else
      var parts := Split(target[i + 1..], '&');
      var exp, sig := Param(parts, "exp"), Param(parts, "sig");
      if exp.None? || sig.None? || ParseInt(exp.value).None? then None
      else Some(Request(place.value.0, place.value.1, ParseInt(exp.value).value, sig.value))
  }

  // ---- Round trip ----------------------------------------------------------

  ghost predicate HexOnly(s: string) { forall i :: 0 <= i < |s| ==> HexDigit(s[i]) }

  /** A path made of a root, a plain bucket and a quoted key decodes to that bucket and key. */
  lemma PathComesBack(root: string, bucket: string, key: string)
    requires Ascii(key) && '%' !in root && '%' !in bucket && '/' !in bucket && bucket != ""
    ensures SplitPath(root, Unquote(root + bucket + "/" + Quote(key))) == Some((bucket, key))
  {
    hide Unquote, Quote;
    var plain := root + bucket + "/";
    UnquotePlain(plain, Quote(key));
    UnquoteOfQuote(key);
    var path := plain + key;
    assert path[..|root|] == root;
    var rest := path[|root|..];
    assert rest == bucket + "/" + key;
    IndexOfAt(rest, '/', |bucket|);
    assert rest[..|bucket|] == bucket && rest[|bucket| + 1..] == key;
  }

  lemma QueryComesBack(exp: int, sig: string)
    requires HexOnly(sig)
    ensures var parts := Split("exp=" + Decimal(exp) + "&sig=" + sig, '&');
            Param(parts, "exp") == Some(Decimal(exp)) && Param(parts, "sig") == Some(sig)
  {
    hide Decimal, Split;
    var d := Decimal(exp);
    ParseOfDecimal(exp);
    var first, second := "exp=" + d, "sig=" + sig;
    assert "exp=" + d + "&sig=" + sig == first + ['&'] + second;
    SplitCons(first, second, '&');
    SplitWhole(second, '&');
    assert "exp" + "=" == "exp=" && "sig" + "=" == "sig=" && "exp"[0] != "sig"[0];
    TwoParams([first, second], "exp", d, "sig", sig);
  }

  lemma TwoParams(parts: seq<string>, name: string, value: string, name': string, value': string)
    requires parts == [name + "=" + value, name' + "=" + value'] && |name| == |name'| && name != name'
    ensures Param(parts, name) == Some(value) && Param(parts, name') == Some(value')
  {
    var first, second := parts[0], parts[1];
    assert first[..|name| + 1] == name + "=" && first[|name| + 1..] == value;
    assert second[..|name'| + 1] == name' + "=" && second[|name'| + 1..] == value';
    assert (name + "=")[..|name|] == name && second[..|name|] == name';
    assert parts[..1] == [first];
    assert !StartsWith(second, name + "=");
    assert Param([first], name) == Some(value);
  }

  lemma SignedTargetParses(bucket: string, key: string, exp: int, sig: string, buckets: seq<string>)
    requires Validate(bucket, key, true, buckets).Accepted? && HexOnly(sig) && Ascii(key)
    ensures ParseTarget(Target(bucket, key, exp, sig)) == Some(Request(bucket, key, exp, sig))
  {
    hide Decimal, Quote, Unquote, Split, ParseInt, Param, SplitPath, ValidateKey;
    var path := FILES_SIGNED + bucket + "/" + Quote(key);
    var query := "exp=" + Decimal(exp) + "&sig=" + sig;
    BucketAlphabet(bucket, buckets);
    QuoteAlphabet(key);
    NoQuestionMark(FILES_SIGNED, bucket, Quote(key));
    assert Target(bucket, key, exp, sig) == path + ['?'] + query;
    IndexOfAt(path + ['?'] + query, '?', |path|);
    assert (path + ['?'] + query)[..|path|] == path && (path + ['?'] + query)[|path| + 1..] == query;
    PathComesBack(FILES_SIGNED, bucket, key);
    QueryComesBack(exp, sig);
    ParseOfDecimal(exp);
  }

  lemma NoQuestionMark(root: string, bucket: string, quoted: string)
    requires '?' !in root && forall i :: 0 <= i < |bucket| ==> BucketChar(bucket[i]) || bucket[i] == '\n'
    requires forall i :: 0 <= i < |quoted| ==> Safe(quoted[i]) || quoted[i] == '%'
    ensures '?' !in root + bucket + "/" + quoted
  {
  }

  /** When a URL is minted, and its text. */
  lemma MintExact(signer: Signer, bucket: string, key: string, expiresIn: int, now: int)
    ensures var minted := CreateSignedUrl(signer, bucket, key, expiresIn, now);
            && (minted.Url? <==>
                  ValidateBucket(bucket, signer.buckets).Accepted? && InLanguage(key, true) && 0 < expiresIn <= 86400)
            && (minted.Url? ==>
                  var exp := now + expiresIn;
                  && minted.base == signer.publicBase && minted.exp == exp && Ascii(key)
                  && minted.target ==
                     "/files-signed/" + bucket + "/" + Quote(key) + "?" + ("exp=" + Decimal(exp) + "&sig="
                     + signer.mac(bucket + "/" + key + ":" + Decimal(exp))))
  {
    hide ValidateKey, ValidateBucket, Quote, Decimal, InLanguage;
    ValidateKeyExact(key, true);
    if ValidateBucket(bucket, signer.buckets).Accepted? && ValidateKey(key, true).Accepted? {
      ValidKeyIsAscii(bucket, key, true, signer.buckets);
    }
  }

  /**
   * A URL is minted for every valid bucket and key, also with `@`, and every lifetime up to a day. It names its own
   * base and is routed back to the bucket, key and expiry it was minted for. It is then served exactly while it has not
   * expired if its key has no `@`; with an `@` the read side's grammar rejects it at any time.
   */
  lemma SignedUrlRoundTrip(signer: Signer, bucket: string, key: string, expiresIn: int, minted: int, now: int)
    requires forall m :: HexOnly(signer.mac(m))
    ensures CreateSignedUrl(signer, bucket, key, expiresIn, minted).Url? <==>
              ValidateBucket(bucket, signer.buckets).Accepted? && InLanguage(key, true) && 0 < expiresIn <= 86400
    ensures var url := CreateSignedUrl(signer, bucket, key, expiresIn, minted);
            url.Url? ==>
              var request := ParseTarget(url.target);
              && url.base == signer.publicBase && url.exp == minted + expiresIn
              && request == Some(Request(bucket, key, url.exp, Sign(signer.mac, bucket, key, url.exp)))
              && (SignedGet(signer, request.value, now).Redirect? <==> '@' !in key && now < minted + expiresIn)
              && (SignedGet(signer, request.value, now).BadRequest? <==> '@' in key)
              && (SignedGet(signer, request.value, now).Forbidden? <==> '@' !in key && now >= minted + expiresIn)
  {
    hide ParseTarget, Target, Message, ValidateKey, ValidateBucket, Quote, InLanguage;
    MintExact(signer, bucket, key, expiresIn, minted);
    if CreateSignedUrl(signer, bucket, key, expiresIn, minted).Url? {
      var exp := minted + expiresIn;
      var sig := Sign(signer.mac, bucket, key, exp);
      ValidKeyIsAscii(bucket, key, true, signer.buckets);
      SignedTargetParses(bucket, key, exp, sig, signer.buckets);
      AtIsTheOnlyDifference(key);
      assert HexOnly(signer.mac(Message(bucket, key, exp)));
      assert Ascii(sig);
    }
  }

  /** A valid key with `@` gets a URL, and its GET is a bad request from the first moment on. */
  lemma AtKeysAreMintedInVain(signer: Signer, bucket: string, key: string, expiresIn: int, minted: int, now: int)
    requires forall m :: HexOnly(signer.mac(m))
    requires ValidateBucket(bucket, signer.buckets).Accepted? && InLanguage(key, true) && '@' in key
    requires 0 < expiresIn <= 86400
    ensures var url := CreateSignedUrl(signer, bucket, key, expiresIn, minted);
            && url.Url? && ParseTarget(url.target).Some?
            && SignedGet(signer, ParseTarget(url.target).value, now).BadRequest?
  {
    hide ParseTarget, CreateSignedUrl, SignedGet, ValidateBucket, InLanguage;
    SignedUrlRoundTrip(signer, bucket, key, expiresIn, minted, now);
  }

  /** Rendition keys are such keys. */
  lemma RenditionKeyHasAt()
    ensures InLanguage("a.png@720.webp", true) && '@' in "a.png@720.webp"
  {
    var key := "a.png@720.webp";
    assert key[9] == '.' && key[10..] == "webp" && '.' !in "webp";
    assert HasExtension(key);
    assert GoodSegments([key], true);
    assert key == Join([key], '/');
    assert key[5] == '@';
  }

  /** The internal redirect names the object that was asked for. */
  lemma RedirectComesBack(signer: Signer, r: Request, now: int)
    requires SignedGet(signer, r, now).Redirect?
    ensures SplitPath("/internal-files/", Unquote(SignedGet(signer, r, now).accel)) == Some((r.bucket, r.key))
  {
    hide ValidateKey, SplitPath, Unquote, Quote, Verify;
    BucketAlphabet(r.bucket, signer.buckets);
    ValidKeyIsAscii(r.bucket, r.key, false, signer.buckets);
    PathComesBack(INTERNAL_FILES, r.bucket, r.key);
  }

  /**
   * A request is served exactly when grammar, expiry and signature are all in order, and is then redirected to the text
   * of bucket and key. A key outside the grammar is a bad request even with a good signature; an unexpired signature
   * outside ASCII ends in an internal error, not in a refusal.
   */
  lemma SignedGetExact(signer: Signer, r: Request, now: int)
    requires forall m :: HexOnly(signer.mac(m))
    ensures var served := SignedGet(signer, r, now);
            var valid := ValidateBucket(r.bucket, signer.buckets).Accepted? && InLanguage(r.key, false);
            var right := signer.mac(r.bucket + "/" + r.key + ":" + Decimal(r.exp));
            && (served.BadRequest? <==> !valid)
            && (served.Redirect? <==> valid && now < r.exp && r.sig == right)
            && (served.InternalError? <==> valid && now < r.exp && !Ascii(r.sig))
            && (served.Forbidden? <==> valid && (r.exp <= now || (Ascii(r.sig) && r.sig != right)))
            && (served.Redirect? ==> served.accel == "/internal-files/" + r.bucket + "/" + r.key)
  {
    hide ValidateKey, ValidateBucket, Quote, Decimal, InLanguage;
    ValidateKeyExact(r.key, false);
    assert HexOnly(signer.mac(Message(r.bucket, r.key, r.exp)));
    if Validate(r.bucket, r.key, false, signer.buckets).Accepted? {
      ValidKeyIsAscii(r.bucket, r.key, false, signer.buckets);
      AtIsTheOnlyDifference(r.key);
      NotInAt(r.key, '@');
      QuoteIdentity(r.key);
    }
  }

  ghost predicate CollisionFree(mac: Mac) { forall m, n :: mac(m) == mac(n) ==> m == n }

  /** If different messages have different MACs, the signature of one URL serves no other bucket, key or expiry. */
  lemma SignatureBindsTheUrl(signer: Signer, bucket: string, key: string, exp: int, r: Request, now: int)
    requires CollisionFree(signer.mac)
    requires '/' !in bucket && r.sig == Sign(signer.mac, bucket, key, exp)
    requires SignedGet(signer, r, now).Redirect?
    ensures r.bucket == bucket && r.key == key && r.exp == exp && now < exp
  {
    hide ValidateKey, Message, Quote;
    BucketAlphabet(r.bucket, signer.buckets);
    assert signer.mac(Message(bucket, key, exp)) == signer.mac(Message(r.bucket, r.key, r.exp));
    MessageInjective(bucket, key, exp, r.bucket, r.key, r.exp);
  }

  // ---- Public URLs ---------------------------------------------------------

  function BuildPublicUrl(publicBase: string, bucket: string, key: string): string
  {
    publicBase + "/files/" + bucket + "/" + key
  }

  /** The public URL is the path-escaped one its description promises exactly for keys without `@`. */
  lemma PublicUrlIsEscapedExactly(publicBase: string, bucket: string, key: string, buckets: seq<string>)
    requires Validate(bucket, key, true, buckets).Accepted?
    ensures Ascii(key) && BuildPublicUrl(publicBase, bucket, key) == publicBase + "/files/" + bucket + "/" + key
    ensures BuildPublicUrl(publicBase, bucket, key) == publicBase + "/files/" + bucket + "/" + Quote(key) <==>
              '@' !in key
  {
    hide Validate, Quote;
    ValidKeyIsAscii(bucket, key, true, buckets);
    QuoteIdentity(key);
    var front := publicBase + "/files/" + bucket + "/";
    assert (front + key)[|front|..] == key && (front + Quote(key))[|front|..] == Quote(key);
    if '@' in key {
      var i :| 0 <= i < |key| && key[i] == '@';
      assert !Safe(key[i]);
    }
  }
}
