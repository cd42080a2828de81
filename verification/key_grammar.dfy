/**
 * The bucket and key grammar (src/validation/key_grammar.py): the checks in the order the code makes
 * them, and the language they accept.
 */
module KeyGrammar {
  import opened Strings

  const MAX_KEY_LEN := 1024
  const MAX_SEGMENT_LEN := 255

  /** One rule per message of the original. */
  datatype Rule =
    | BucketName
    | UnknownBucket
    | KeyLength
    | LeadingSlash
    | Backslash
    | PercentEncoding
    | ControlCharacter
    | DotSegment
    | SegmentTooLong
    | IllegalCharacter
    | NoExtension

  datatype Verdict = Accepted | Rejected(rule: Rule)

  predicate Lower(c: char) { 'a' <= c <= 'z' }
  predicate Digit(c: char) { '0' <= c <= '9' }

  predicate SegmentChar(c: char, allowAt: bool)
  {
    Lower(c) || 'A' <= c <= 'Z' || Digit(c) || c == '.' || c == '_' || c == '-' || (allowAt && c == '@')
  }

  predicate BucketChar(c: char) { Lower(c) || Digit(c) || c == '-' }

  /** What `$` lets a pattern ignore: one newline at the very end. */
  function BeforeDollar(s: string): string
  {
    if s != "" && s[|s| - 1] == '\n' then s[..|s| - 1] else s
  }

  /** `re.match(r"^[...]+$", seg)`. */
  predicate SegmentMatches(seg: string, allowAt: bool)
  {
    var body := BeforeDollar(seg);
    body != "" && forall i :: 0 <= i < |body| ==> SegmentChar(body[i], allowAt)
  }

  /** `re.match(r"^[a-z0-9-]{3,63}$", bucket)`. */
  predicate BucketMatches(bucket: string)
  {
    var body := BeforeDollar(bucket);
    3 <= |body| <= 63 && forall i :: 0 <= i < |body| ==> BucketChar(body[i])
  }

  function ValidateBucket(bucket: string, buckets: seq<string>): Verdict
  {
    if !BucketMatches(bucket) then Rejected(BucketName)
    else if bucket !in buckets then Rejected(UnknownBucket)
    else Accepted
  }

  function CheckSegments(segments: seq<string>, allowAt: bool): Verdict
  {
    if segments == [] then Accepted
    else
      var seg := segments[0];
      if seg == "" || seg == "." || seg == ".." then Rejected(DotSegment)
      else if |seg| > MAX_SEGMENT_LEN then Rejected(SegmentTooLong)
      else if !SegmentMatches(seg, allowAt) then Rejected(IllegalCharacter)
      else CheckSegments(segments[1..], allowAt)
  }

  /** `name.rsplit(".", 1)[1]`, for a name that contains a dot. */
  function AfterLastDot(name: string): (ext: string)
    requires '.' in name
    ensures '.' !in ext
    ensures |ext| < |name|
    ensures name[|name| - |ext| - 1] == '.' && name[|name| - |ext|..] == ext
  {
    if '.' in name[1..] then AfterLastDot(name[1..]) else name[1..]
  }

  /** The checks that follow the whole-key ones: every segment, then the extension. */
  function CheckShape(key: string, allowAt: bool): Verdict
  {
    var segments := Split(key, '/');
    var verdict := CheckSegments(segments, allowAt);
    if verdict.Rejected? then verdict
    else
      var last := segments[|segments| - 1];
      if '.' !in last || AfterLastDot(last) == "" then Rejected(NoExtension) else Accepted
  }

  function ValidateKey(key: string, allowAt: bool): Verdict
  {
    if key == "" || |key| > MAX_KEY_LEN then Rejected(KeyLength)
    else if key[0] == '/' then Rejected(LeadingSlash)
    else if '\\' in key then Rejected(Backslash)
    else if '%' in key then Rejected(PercentEncoding)
    else if exists i :: 0 <= i < |key| && key[i] < ' ' then Rejected(ControlCharacter)
    else CheckShape(key, allowAt)
  }

  function Validate(bucket: string, key: string, allowAt: bool, buckets: seq<string>): Verdict
  {
    var verdict := ValidateBucket(bucket, buckets);
    if verdict.Rejected? then verdict else ValidateKey(key, allowAt)
  }

  // ---- The language --------------------------------------------------------

  ghost predicate GoodSegment(seg: string, allowAt: bool)
  {
    && 0 < |seg| <= 255
    && seg != "." && seg != ".."
    && forall i :: 0 <= i < |seg| ==>
         || 'a' <= seg[i] <= 'z' || 'A' <= seg[i] <= 'Z' || '0' <= seg[i] <= '9'
         || seg[i] == '.' || seg[i] == '_' || seg[i] == '-' || (allowAt && seg[i] == '@')
  }

  /** `name` is a stem, a dot, and a non-empty extension. */
  ghost predicate HasExtension(name: string)
  {
    exists i :: 0 <= i < |name| - 1 && name[i] == '.' && '.' !in name[i + 1..]
  }

  ghost predicate GoodSegments(segments: seq<string>, allowAt: bool)
  {
    && segments != []
    && (forall i :: 0 <= i < |segments| ==> GoodSegment(segments[i], allowAt))
    && HasExtension(segments[|segments| - 1])
  }

  ghost predicate InLanguage(key: string, allowAt: bool)
  {
    && |key| <= 1024
    && exists segments: seq<string> :: GoodSegments(segments, allowAt) && key == Join(segments, '/')
  }

  lemma {:induction false} CheckSegmentsExact(segments: seq<string>, allowAt: bool)
    ensures CheckSegments(segments, allowAt).Accepted? <==>
            forall i :: 0 <= i < |segments| ==>
              && 0 < |segments[i]| <= MAX_SEGMENT_LEN && segments[i] != "." && segments[i] != ".."
              && SegmentMatches(segments[i], allowAt)
  {
    if segments != [] {
      CheckSegmentsExact(segments[1..], allowAt);
      assert forall i :: 0 <= i < |segments| - 1 ==> segments[1..][i] == segments[i + 1];
      assert forall i :: 0 < i < |segments| ==> segments[i] == segments[1..][i - 1];
    }
  }

  lemma ExtensionExact(name: string)
    ensures HasExtension(name) <==> ('.' in name && AfterLastDot(name) != "")
  {
    if '.' in name {
      var ext := AfterLastDot(name);
      var at := |name| - |ext| - 1;
      if ext != "" {
        assert name[at] == '.' && name[at + 1..] == ext;
      }
      if HasExtension(name) {
        var i :| 0 <= i < |name| - 1 && name[i] == '.' && '.' !in name[i + 1..];
        assert forall j :: i < j < |name| ==> name[j] in name[i + 1..];
      }
    }
  }

  lemma CleanSegmentHasNoNewline(seg: string, allowAt: bool)
    requires SegmentMatches(seg, allowAt)
    requires forall i :: 0 <= i < |seg| ==> seg[i] >= ' '
    ensures forall i :: 0 <= i < |seg| ==> SegmentChar(seg[i], allowAt)
  {
    assert BeforeDollar(seg) == seg;
  }

  /** Every part of a key without control characters is without them too. */
  lemma NoControlInParts(key: string)
    requires forall i :: 0 <= i < |key| ==> key[i] >= ' '
    ensures forall i, j :: 0 <= i < |Split(key, '/')| && 0 <= j < |Split(key, '/')[i]| ==> Split(key, '/')[i][j] >= ' '
  {
    var parts := Split(key, '/');
    forall i, j | 0 <= i < |parts| && 0 <= j < |parts[i]| ensures parts[i][j] >= ' ' {
      CharsOfSplit(key, '/', parts[i][j]);
      assert parts[i][j] in parts[i];
      assert parts[i][j] in key;
    }
  }

  lemma GoodCharsOnly(segments: seq<string>, allowAt: bool, key: string)
    requires GoodSegments(segments, allowAt)
    requires key == Join(segments, '/')
    ensures Split(key, '/') == segments
    ensures forall i :: 0 <= i < |key| ==> key[i] == '/' || SegmentChar(key[i], allowAt)
    ensures key != "" && key[0] != '/'
  {
    forall i | 0 <= i < |segments| ensures '/' !in segments[i] {
      assert GoodSegment(segments[i], allowAt);
    }
    SplitOfJoin(segments, '/');
    forall i | 0 <= i < |key| && key[i] != '/' ensures SegmentChar(key[i], allowAt) {
      CharsOfSplit(key, '/', key[i]);
      assert key[i] in key;
      var j :| 0 <= j < |segments| && key[i] in segments[j];
      assert GoodSegment(segments[j], allowAt);
    }
    assert GoodSegment(segments[0], allowAt);
    assert segments[0][0] == key[0];
  }

  lemma AcceptedMeans(key: string, allowAt: bool)
    requires ValidateKey(key, allowAt).Accepted?
    ensures 0 < |key| <= MAX_KEY_LEN && key[0] != '/' && '\\' !in key && '%' !in key
    ensures forall i :: 0 <= i < |key| ==> key[i] >= ' '
    ensures CheckShape(key, allowAt).Accepted?
  {
    hide CheckShape;
  }

  lemma AcceptedIsInLanguage(key: string, allowAt: bool)
    requires ValidateKey(key, allowAt).Accepted?
    ensures GoodSegments(Split(key, '/'), allowAt) && key == Join(Split(key, '/'), '/')
  {
    hide ValidateKey, Split, Join, CheckSegments, SegmentMatches, AfterLastDot;
    AcceptedMeans(key, allowAt);
    var parts := Split(key, '/');
    CheckSegmentsExact(parts, allowAt);
    JoinOfSplit(key, '/');
    NoControlInParts(key);
    forall i | 0 <= i < |parts| ensures GoodSegment(parts[i], allowAt) {
      CleanSegmentHasNoNewline(parts[i], allowAt);
    }
    ExtensionExact(parts[|parts| - 1]);
  }

  lemma GoodSegmentsPass(segments: seq<string>, allowAt: bool)
    requires GoodSegments(segments, allowAt)
    ensures CheckSegments(segments, allowAt).Accepted?
  {
    forall i | 0 <= i < |segments| ensures SegmentMatches(segments[i], allowAt) {
      assert GoodSegment(segments[i], allowAt);
      assert BeforeDollar(segments[i]) == segments[i];
    }
    CheckSegmentsExact(segments, allowAt);
    assert forall i :: 0 <= i < |segments| ==> GoodSegment(segments[i], allowAt);
  }

  lemma CleanKeyIsJudgedByShape(key: string, allowAt: bool)
    requires 0 < |key| <= MAX_KEY_LEN && key[0] != '/'
    requires forall i :: 0 <= i < |key| ==> key[i] == '/' || SegmentChar(key[i], allowAt)
    ensures ValidateKey(key, allowAt) == CheckShape(key, allowAt)
  {
    assert forall i :: 0 <= i < |key| ==> key[i] != '\\' && key[i] != '%' && key[i] >= ' ';
    assert '\\' !in key && '%' !in key;
  }

  lemma GoodShape(key: string, allowAt: bool)
    requires GoodSegments(Split(key, '/'), allowAt)
    ensures CheckShape(key, allowAt).Accepted?
  {
    GoodSegmentsPass(Split(key, '/'), allowAt);
    ExtensionExact(Last(Split(key, '/')));
  }

  lemma InLanguageIsAccepted(key: string, allowAt: bool)
    requires InLanguage(key, allowAt)
    ensures ValidateKey(key, allowAt).Accepted?
  {
    var segments :| GoodSegments(segments, allowAt) && key == Join(segments, '/');
    GoodCharsOnly(segments, allowAt, key);
    CleanKeyIsJudgedByShape(key, allowAt);
    GoodShape(key, allowAt);
  }

  /** The code accepts exactly the slash-joined lists of good segments whose last one has an extension. */
  lemma ValidateKeyExact(key: string, allowAt: bool)
    ensures ValidateKey(key, allowAt).Accepted? <==> InLanguage(key, allowAt)
  {
    if ValidateKey(key, allowAt).Accepted? {
      AcceptedIsInLanguage(key, allowAt);
    }
    if InLanguage(key, allowAt) {
      InLanguageIsAccepted(key, allowAt);
    }
  }

  lemma GoodSegmentsWithAt(segments: seq<string>)
    requires GoodSegments(segments, false)
    ensures GoodSegments(segments, true)
  {
    forall i | 0 <= i < |segments| ensures GoodSegment(segments[i], true) {
      assert GoodSegment(segments[i], false);
    }
  }

  lemma GoodSegmentsWithoutAt(key: string)
    requires GoodSegments(Split(key, '/'), true) && '@' !in key
    ensures GoodSegments(Split(key, '/'), false)
  {
    var segments := Split(key, '/');
    NotInParts(key, '/', '@');
    forall i | 0 <= i < |segments| ensures GoodSegment(segments[i], false) {
      assert GoodSegment(segments[i], true);
      NotInAt(segments[i], '@');
    }
  }

  /** The S2S-only language adds nothing but the `@` character. */
  lemma AtIsTheOnlyDifference(key: string)
    ensures ValidateKey(key, false).Accepted? <==> (ValidateKey(key, true).Accepted? && '@' !in key)
  {
    if ValidateKey(key, false).Accepted? {
      AcceptedIsInLanguage(key, false);
      var segments := Split(key, '/');
      GoodCharsOnly(segments, false, key);
      GoodSegmentsWithAt(segments);
      InLanguageIsAccepted(key, true);
    }
    if ValidateKey(key, true).Accepted? && '@' !in key {
      AcceptedIsInLanguage(key, true);
      GoodSegmentsWithoutAt(key);
      InLanguageIsAccepted(key, false);
    }
  }

  lemma NewlineSegmentMatches(seg: string, allowAt: bool)
    requires GoodSegment(seg, allowAt)
    ensures SegmentMatches(seg + "\n", allowAt)
  {
    assert BeforeDollar(seg + "\n") == seg;
  }

  lemma NewlineKeepsExtension(name: string)
    requires HasExtension(name)
    ensures HasExtension(name + "\n")
  {
    var dot :| 0 <= dot < |name| - 1 && name[dot] == '.' && '.' !in name[dot + 1..];
    assert (name + "\n")[dot + 1..] == name[dot + 1..] + "\n";
    assert (name + "\n")[dot] == '.';
  }

  lemma NewlineSegmentsPass(segments: seq<string>, allowAt: bool)
    requires GoodSegments(segments, allowAt) && |Last(segments)| < MAX_SEGMENT_LEN
    ensures CheckSegments(ExtendLast(segments, "\n"), allowAt).Accepted?
  {
    var long := ExtendLast(segments, "\n");
    var n := |segments| - 1;
    forall i | 0 <= i < |long|
      ensures 0 < |long[i]| <= MAX_SEGMENT_LEN && long[i] != "." && long[i] != ".." && SegmentMatches(long[i], allowAt)
    {
      assert GoodSegment(segments[i], allowAt);
      if i < n {
        assert long[i] == segments[i] && BeforeDollar(long[i]) == long[i];
      } else {
        NewlineSegmentMatches(segments[n], allowAt);
        assert long[n][|segments[n]|] == '\n';
      }
    }
    CheckSegmentsExact(long, allowAt);
  }

  lemma NewlineKeepsShape(key: string, allowAt: bool)
    requires GoodSegments(Split(key, '/'), allowAt)
    requires |Last(Split(key, '/'))| < MAX_SEGMENT_LEN
    ensures CheckShape(key + "\n", allowAt).Accepted?
  {
    var segments := Split(key, '/');
    SplitAppend(key, "\n", '/');
    NewlineSegmentsPass(segments, allowAt);
    NewlineKeepsExtension(Last(segments));
    ExtensionExact(Last(segments) + "\n");
  }

  /**
   * A trailing newline passes every segment and extension check, because `$` matches before it: what
   * keeps it out is the control-character check alone.
   */
  lemma OnlyControlCheckStopsNewline(key: string, allowAt: bool)
    requires ValidateKey(key, allowAt).Accepted?
    requires |key| < MAX_KEY_LEN && |Last(Split(key, '/'))| < MAX_SEGMENT_LEN
    ensures CheckShape(key + "\n", allowAt).Accepted?
    ensures ValidateKey(key + "\n", allowAt) == Rejected(ControlCharacter)
  {
    hide ValidateKey, CheckShape, Split, Join;
    AcceptedMeans(key, allowAt);
    AcceptedIsInLanguage(key, allowAt);
    NewlineKeepsShape(key, allowAt);
    ControlIsRejected(key, "\n", allowAt);
  }

  lemma ControlIsRejected(key: string, tail: string, allowAt: bool)
    requires 0 < |key| < MAX_KEY_LEN && key[0] != '/' && '\\' !in key && '%' !in key
    requires |tail| == 1 && tail[0] < ' '
    ensures ValidateKey(key + tail, allowAt) == Rejected(ControlCharacter)
  {
    hide CheckShape;
    var long := key + tail;
    assert long[0] == key[0] && long[|key|] == tail[0];
    assert '\\' !in long && '%' !in long;
  }

  /** A bucket name: 3 to 63 lower-case letters, digits and dashes. */
  ghost predicate GoodBucketName(name: string)
  {
    && 3 <= |name| <= 63
    && forall i :: 0 <= i < |name| ==> 'a' <= name[i] <= 'z' || '0' <= name[i] <= '9' || name[i] == '-'
  }

  /** Accepted buckets are the configured ones with a good name, or with one followed by the newline `$` lets pass. */
  lemma ValidateBucketExact(bucket: string, buckets: seq<string>)
    ensures ValidateBucket(bucket, buckets).Accepted? <==>
            && bucket in buckets
            && (GoodBucketName(bucket) || exists name :: GoodBucketName(name) && bucket == name + "\n")
    ensures ValidateBucket(bucket, buckets) == Rejected(UnknownBucket) <==>
            && bucket !in buckets
            && (GoodBucketName(bucket) || exists name :: GoodBucketName(name) && bucket == name + "\n")
  {
    if bucket != "" && bucket[|bucket| - 1] == '\n' {
      assert bucket == BeforeDollar(bucket) + "\n";
    }
    forall name | GoodBucketName(name) && bucket == name + "\n" ensures BeforeDollar(bucket) == name {
      assert bucket[|name|] == '\n';
    }
  }

  /** Configured names are stripped; then the newline cannot reach a bucket name. */
  lemma StrippedBucketsOnly(bucket: string, buckets: seq<string>)
    requires forall b :: b in buckets && b != "" ==> b[|b| - 1] != '\n'
    ensures ValidateBucket(bucket, buckets).Accepted? <==> bucket in buckets && GoodBucketName(bucket)
  {
    ValidateBucketExact(bucket, buckets);
    forall name | bucket == name + "\n" ensures bucket !in buckets {
      assert bucket[|bucket| - 1] == '\n';
    }
  }

  // ---- Which rule --------------------------------------------------------

  /** The first segment that is not good, judged alone. */
  ghost predicate FirstBad(segments: seq<string>, allowAt: bool, i: nat)
  {
    && i < |segments| && !GoodSegment(segments[i], allowAt)
    && forall j :: 0 <= j < i ==> GoodSegment(segments[j], allowAt)
  }

  /** The rule a bad segment breaks: empty or dots, then length, then characters. */
  function BrokenBy(seg: string): Rule
  {
    if seg == "" || seg == "." || seg == ".." then DotSegment
    else if |seg| > 255 then SegmentTooLong
    else IllegalCharacter
  }

  lemma {:induction false} CheckSegmentsNames(segments: seq<string>, allowAt: bool, i: nat)
    requires FirstBad(segments, allowAt, i) && forall j :: 0 <= j < |segments| ==> Clean(segments[j])
    ensures CheckSegments(segments, allowAt) == Rejected(BrokenBy(segments[i]))
  {
    CleanMatches(segments[0], allowAt);
    if i > 0 {
      forall j | 0 <= j < i - 1 ensures GoodSegment(segments[1..][j], allowAt) {
        assert segments[1..][j] == segments[j + 1];
      }
      CheckSegmentsNames(segments[1..], allowAt, i - 1);
    }
  }

  predicate Clean(s: string) { forall i :: 0 <= i < |s| ==> s[i] >= ' ' }

  lemma CleanMatches(seg: string, allowAt: bool)
    requires Clean(seg)
    ensures GoodSegment(seg, allowAt) <==>
            0 < |seg| <= 255 && seg != "." && seg != ".." && SegmentMatches(seg, allowAt)
  {
    assert BeforeDollar(seg) == seg;
  }

  /**
   * Every rejected key is rejected for what is wrong with it: its length, a leading slash, a backslash, a percent sign,
   * a control character, and then the first bad segment, or the missing extension when no segment is bad.
   */
  lemma RejectedExactly(key: string, allowAt: bool, i: nat)
    ensures var verdict := ValidateKey(key, allowAt); var parts := Split(key, '/');
            var plain := 0 < |key| <= 1024 && key[0] != '/' && '\\' !in key && '%' !in key;
            && (verdict == Rejected(KeyLength) <==> key == "" || |key| > 1024)
            && (verdict == Rejected(LeadingSlash) <==> 0 < |key| <= 1024 && key[0] == '/')
            && (verdict == Rejected(Backslash) <==> 0 < |key| <= 1024 && key[0] != '/' && '\\' in key)
            && (verdict == Rejected(PercentEncoding) <==>
                  0 < |key| <= 1024 && key[0] != '/' && '\\' !in key && '%' in key)
            && (verdict == Rejected(ControlCharacter) <==> plain && !Clean(key))
            && (plain && Clean(key) && FirstBad(parts, allowAt, i) ==> verdict == Rejected(BrokenBy(parts[i])))
            && (verdict == Rejected(NoExtension) <==>
                  && plain && Clean(key) && !HasExtension(Last(parts))
                  && forall j :: 0 <= j < |parts| ==> GoodSegment(parts[j], allowAt))
  {
    hide Split;
    var parts := Split(key, '/');
    if Clean(key) {
      NoControlInParts(key);
      CheckSegmentsJudges(parts, allowAt);
      if FirstBad(parts, allowAt, i) {
        CheckSegmentsNames(parts, allowAt, i);
      }
    }
    ExtensionExact(Last(parts));
  }

  /** Segments without control characters pass exactly when all are good, and never for lack of an extension. */
  lemma CheckSegmentsJudges(segments: seq<string>, allowAt: bool)
    requires forall j :: 0 <= j < |segments| ==> Clean(segments[j])
    ensures CheckSegments(segments, allowAt).Accepted? <==>
            forall j :: 0 <= j < |segments| ==> GoodSegment(segments[j], allowAt)
    ensures CheckSegments(segments, allowAt).Rejected? ==>
              CheckSegments(segments, allowAt).rule in {DotSegment, SegmentTooLong, IllegalCharacter}
  {
    CheckSegmentsExact(segments, allowAt);
    forall j | 0 <= j < |segments|
      ensures GoodSegment(segments[j], allowAt) <==>
              && 0 < |segments[j]| <= MAX_SEGMENT_LEN && segments[j] != "." && segments[j] != ".."
              && SegmentMatches(segments[j], allowAt)
    {
      CleanMatches(segments[j], allowAt);
    }
  }
}
