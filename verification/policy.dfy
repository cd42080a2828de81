/**
 * Who may write what, and how much: src/validation/prefix_policy.py, src/validation/size_caps.py, and the
 * checks the write handlers make before they reach the driver.
 */
module Policy {
  import opened Strings
  import opened Options
  import opened KeyGrammar
  import opened Layout

  datatype Principal = Service(name: string) | User(name: string)

  /** Byte caps are taken as natural numbers. */
  datatype Settings = Settings(
    buckets: seq<string>,
    serviceOnly: seq<string>,
    prefixCaps: map<string, nat>,
    maxObjectBytes: nat,
    mimeCaps: map<string, nat>)

  datatype HttpError =
    | ValidationError(rule: Option<Rule>)
    | PrefixNotAllowed
    | UnsupportedMediaType
    | PayloadTooLarge
    | AlreadyExists

  datatype Checked<+T> = Ok(value: T) | Err(error: HttpError)

  /** A write the handlers hand to the driver. */
  datatype Job = Job(
    id: Id,
    who: Principal,
    contentType: string,
    metadata: map<string, string>,
    exclusive: bool,
    cap: nat)

  // ---- Longest matching prefix ---------------------------------------------

  /** The reference lookup: try the prefixes of `text` of length at most `n`, longest first. */
  function LongestUpTo(entries: set<string>, text: string, n: nat): Option<string>
    requires n <= |text|
  {
    if text[..n] in entries then Some(text[..n]) else if n == 0 then None else LongestUpTo(entries, text, n - 1)
  }

  function Longest(entries: set<string>, text: string): Option<string> { LongestUpTo(entries, text, |text|) }

  /** `best` is a matching entry no matching entry is longer than; `None` when nothing matches. */
  ghost predicate IsLongest(entries: set<string>, text: string, best: Option<string>)
  {
    match best
    case None => forall p :: p in entries ==> !StartsWith(text, p)
    case Some(b) =>
      && b in entries && StartsWith(text, b)
      && forall p :: p in entries && StartsWith(text, p) ==> |p| <= |b|
  }

  lemma {:induction false} LongestUpToMeets(entries: set<string>, text: string, n: nat)
    requires n <= |text|
    ensures match LongestUpTo(entries, text, n)
            case None => forall p :: p in entries && StartsWith(text, p) ==> |p| > n
            case Some(b) =>
              && b in entries && StartsWith(text, b)
              && forall p :: p in entries && StartsWith(text, p) && |p| <= n ==> |p| <= |b|
  {
    forall p | p in entries && StartsWith(text, p) ensures p == text[..|p|] {
    }
    if text[..n] !in entries && n > 0 {
      LongestUpToMeets(entries, text, n - 1);
    }
  }

  /** There is exactly one longest match, and the reference lookup finds it. */
  lemma LongestExact(entries: set<string>, text: string, best: Option<string>)
    ensures IsLongest(entries, text, best) <==> best == Longest(entries, text)
  {
    LongestUpToMeets(entries, text, |text|);
    var found := Longest(entries, text);
    assert IsLongest(entries, text, found);
    if IsLongest(entries, text, best) && best.Some? && found.Some? {
      assert best.value == text[..|best.value|] && found.value == text[..|found.value|];
    }
  }

  /** One more entry changes the answer exactly when it matches and is longer than what matched before. */
  lemma LongestWithOneMore(entries: set<string>, extra: string, text: string)
    ensures Longest(entries + {extra}, text) ==
            if StartsWith(text, extra) && (Longest(entries, text).None? || |extra| > |Longest(entries, text).value|)
            then Some(extra) else Longest(entries, text)
  {
    LongestExact(entries, text, Longest(entries, text));
    var best :=
      if StartsWith(text, extra) && (Longest(entries, text).None? || |extra| > |Longest(entries, text).value|)
      then Some(extra) else Longest(entries, text);
    assert IsLongest(entries + {extra}, text, best);
    LongestExact(entries + {extra}, text, best);
  }

  function S2sCap(settings: Settings, key: string): nat
  {
    match Longest(settings.prefixCaps.Keys, key)
    case Some(p) => if p in settings.prefixCaps then settings.prefixCaps[p] else 0
    case None => settings.maxObjectBytes
  }

  /** `resolve_s2s_cap`: one pass over the map in whatever order it iterates. */
  method ResolveS2sCap(settings: Settings, key: string, order: seq<string>) returns (cap: nat)
    requires forall p :: p in order <==> p in settings.prefixCaps
    ensures cap == S2sCap(settings, key)
  {
    var best: Option<string> := None;
    for i := 0 to |order|
      invariant IsLongest(set j | 0 <= j < i :: order[j], key, best)
    {
      if StartsWith(key, order[i]) && (best.None? || |order[i]| > |best.value|) {
        best := Some(order[i]);
      }
    }
    assert (set j | 0 <= j < |order| :: order[j]) == settings.prefixCaps.Keys;
    LongestExact(settings.prefixCaps.Keys, key, best);
    cap := if best.Some? then settings.prefixCaps[best.value] else settings.maxObjectBytes;
  }

  // ---- User uploads --------------------------------------------------------

  /** What `str.strip` removes, up to code 255: header values are decoded as Latin-1. */
  predicate Space(c: char)
  {
    c == ' ' || '\t' <= c <= '\r' || 28 <= c as int <= 31 || c as int == 133 || c as int == 160
  }

  function StripLeft(s: string): string { if s != "" && Space(s[0]) then StripLeft(s[1..]) else s }

  function StripRight(s: string): string { if s != "" && Space(Last(s)) then StripRight(s[..|s| - 1]) else s }

  /** Capital letters up to code 255; 215 is the multiplication sign. */
  predicate Capital(c: char) { 'A' <= c <= 'Z' || (192 <= c as int <= 222 && c as int != 215) }

  function LowerCase(s: string): (r: string)
    ensures |r| == |s|
  {
    seq(|s|, i requires 0 <= i < |s| => if Capital(s[i]) then (s[i] as int + 32) as char else s[i])
  }

  /** `(content_type or "").split(";", 1)[0].strip().lower()`. */
  function MediaType(contentType: Option<string>): string
  {
    var text := if contentType.Some? then contentType.value else "";
    LowerCase(StripRight(StripLeft(text[..IndexOf(text, ';')])))
  }

  /** Only blanks, by code. */
  ghost predicate Blank(s: string)
  {
    forall i :: 0 <= i < |s| ==> s[i] as int in {9, 10, 11, 12, 13, 28, 29, 30, 31, 32, 133, 160}
  }

  /**
   * A content type taken apart: blanks, the media type, blanks, and what follows from the first semicolon on. The media
   * type has no semicolon and neither begins nor ends with a blank.
   */
  datatype Parts = Parts(before: string, core: string, after: string, rest: string)

  ghost predicate IsParts(text: string, p: Parts)
  {
    && text == p.before + p.core + p.after + p.rest
    && Blank(p.before) && Blank(p.after) && (p.rest == "" || p.rest[0] == ';')
    && ';' !in p.core && (p.core != "" ==> !Blank(p.core[..1]) && !Blank(p.core[|p.core| - 1..]))
  }

  /** `low` is `core` with each capital letter, ASCII or Latin-1, replaced by its small one. */
  ghost predicate IsLowered(core: string, low: string)
  {
    && |low| == |core|
    && forall i :: 0 <= i < |core| ==>
         var code := core[i] as int;
         low[i] as int == if 65 <= code <= 90 || 192 <= code <= 214 || 216 <= code <= 222 then code + 32 else code
  }

  /** Every text has these parts, and its media type is the lowered core. */
  lemma MediaTypeExact(contentType: Option<string>, text: string, p: Parts)
    requires contentType == Some(text) || (contentType.None? && text == "")
    requires IsParts(text, p)
    ensures IsLowered(p.core, MediaType(contentType))
  {
    var head := p.before + p.core + p.after;
    assert text == head + p.rest;
    NoSemicolonInBlanks(p.before);
    NoSemicolonInBlanks(p.after);
    assert ';' !in head;
    NotInAt(head, ';');
    IndexOfAt(text, ';', |head|);
    assert text[..|head|] == head;
    assert head == p.before + (p.core + p.after);
    StripBlanksLeft(p.before, p.core + p.after);
    StripCore(p.core, p.after);
  }

  lemma HasParts(text: string) returns (p: Parts)
    ensures IsParts(text, p)
  {
    var n := IndexOf(text, ';');
    var before, tail := SplitBlanksLeft(text[..n]);
    var core, after := SplitBlanksRight(tail);
    p := Parts(before, core, after, text[n..]);
    assert text == text[..n] + text[n..];
    assert forall i :: 0 <= i < |core| ==> core[i] == text[..n][|before| + i] != ';';
    assert core <= tail && (core != "" ==> core[..1] == tail[..1]);
  }

  lemma BlankIsSpace(s: string)
    ensures Blank(s) <==> forall i :: 0 <= i < |s| ==> Space(s[i])
  {
  }

  lemma NoSemicolonInBlanks(s: string)
    requires Blank(s)
    ensures ';' !in s
  {
    assert ';' as int == 59;
  }

  lemma {:induction false} StripBlanksLeft(blanks: string, s: string)
    requires Blank(blanks)
    ensures StripLeft(blanks + s) == StripLeft(s)
  {
    if blanks == "" {
      assert blanks + s == s;
    } else {
      assert (blanks + s)[1..] == blanks[1..] + s;
      BlankIsSpace(blanks);
      StripBlanksLeft(blanks[1..], s);
    }
  }

  lemma {:induction false} StripBlanksRight(s: string, blanks: string)
    requires Blank(blanks)
    ensures StripRight(s + blanks) == StripRight(s)
  {
    if blanks == "" {
      assert s + blanks == s;
    } else {
      var n := |blanks| - 1;
      assert (s + blanks)[..|s + blanks| - 1] == s + blanks[..n];
      BlankIsSpace(blanks);
      StripBlanksRight(s, blanks[..n]);
    }
  }

  lemma StripCore(core: string, after: string)
    requires Blank(after) && (core != "" ==> !Blank(core[..1]) && !Blank(core[|core| - 1..]))
    ensures StripRight(StripLeft(core + after)) == core
  {
    if core == "" {
      StripBlanksLeft(after, "");
      assert core + after == after + "" == after;
    } else {
      BlankIsSpace(core[..1]);
      BlankIsSpace(core[|core| - 1..]);
      assert (core + after)[0] == core[0];
      StripBlanksRight(core, after);
    }
  }

  lemma {:induction false} SplitBlanksLeft(s: string) returns (blanks: string, rest: string)
    ensures s == blanks + rest && Blank(blanks) && (rest != "" ==> !Blank(rest[..1]))
  {
    if s == "" || !Blank(s[..1]) {
      blanks, rest := "", s;
    } else {
      blanks, rest := SplitBlanksLeft(s[1..]);
      blanks := s[..1] + blanks;
      assert s == s[..1] + s[1..];
    }
  }

  lemma {:induction false} SplitBlanksRight(s: string) returns (rest: string, blanks: string)
    ensures s == rest + blanks && Blank(blanks) && (rest != "" ==> !Blank(rest[|rest| - 1..]))
  {
    if s == "" || !Blank(s[|s| - 1..]) {
      rest, blanks := s, "";
    } else {
      rest, blanks := SplitBlanksRight(s[..|s| - 1]);
      blanks := blanks + s[|s| - 1..];
      assert s == s[..|s| - 1] + s[|s| - 1..];
    }
  }

  predicate ServiceOnly(settings: Settings, key: string)
  {
    exists i :: 0 <= i < |settings.serviceOnly| && StartsWith(key, settings.serviceOnly[i])
  }

  function UserCap(settings: Settings, contentType: Option<string>): Checked<nat>
  {
    var ct := MediaType(contentType);
    match Longest(settings.mimeCaps.Keys, ct)
    case Some(p) => if ct == "" || p !in settings.mimeCaps then Err(UnsupportedMediaType) else Ok(settings.mimeCaps[p])
    case None => Err(UnsupportedMediaType)
  }

  /** `resolve_user_cap`. */
  method ResolveUserCap(settings: Settings, contentType: Option<string>, order: seq<string>) returns (cap: Checked<nat>)
    requires forall p :: p in order <==> p in settings.mimeCaps
    ensures cap == UserCap(settings, contentType)
  {
    var ct := MediaType(contentType);
    var best: Option<string> := None;
    for i := 0 to |order|
      invariant IsLongest(set j | 0 <= j < i :: order[j], ct, best)
    {
      if StartsWith(ct, order[i]) && (best.None? || |order[i]| > |best.value|) {
        best := Some(order[i]);
      }
    }
    assert (set j | 0 <= j < |order| :: order[j]) == settings.mimeCaps.Keys;
    LongestExact(settings.mimeCaps.Keys, ct, best);
    if ct == "" || best.None? {
      return Err(UnsupportedMediaType);
    }
    cap := Ok(settings.mimeCaps[best.value]);
  }

  /** `check_user_writable`. */
  method CheckUserWritable(settings: Settings, key: string) returns (allowed: bool)
    ensures allowed <==> !ServiceOnly(settings, key)
  {
    for i := 0 to |settings.serviceOnly|
      invariant forall j :: 0 <= j < i ==> !StartsWith(key, settings.serviceOnly[j])
    {
      if StartsWith(key, settings.serviceOnly[i]) {
        return false;
      }
    }
    allowed := true;
  }

  /** `check_user_upload`: prefix, then media type, then declared size. */
  function CheckUserUpload(settings: Settings, key: string, contentType: Option<string>,
                           size: Option<nat>): Checked<nat>
  {
    if ServiceOnly(settings, key) then Err(PrefixNotAllowed)
    else
      var cap := UserCap(settings, contentType);
      if cap.Ok? && size.Some? && size.value > cap.value then Err(PayloadTooLarge) else cap
  }

  // ---- What the handlers admit ---------------------------------------------

  function UploaderTag(who: Principal): string
  {
    if who.Service? then "svc:" + who.name else "user:" + who.name
  }

  /** `put_object` up to its call of the driver. `declared` is a numeric Content-Length. */
  function AdmitPut(settings: Settings, caller: string, id: Id, contentType: Option<string>, declared: Option<nat>,
                    upsert: bool): Checked<Job>
  {
    var verdict := Validate(id.bucket, id.key, true, settings.buckets);
    if verdict.Rejected? then Err(ValidationError(Some(verdict.rule)))
    else if contentType.None? || contentType.value == "" then Err(ValidationError(None))
    else
      var cap := S2sCap(settings, id.key);
      if declared.Some? && declared.value > cap then Err(PayloadTooLarge)
      else
        var metadata := map["uploader" := UploaderTag(Service(caller))];
        Ok(Job(id, Service(caller), contentType.value, metadata, !upsert, cap))
  }

  /** `create_upload` up to its call of the driver. */
  function AdmitUpload(settings: Settings, sub: string, id: Id, contentType: Option<string>,
                       size: Option<nat>): Checked<Job>
  {
    var verdict := Validate(id.bucket, id.key, false, settings.buckets);
    if verdict.Rejected? then Err(ValidationError(Some(verdict.rule)))
    else
      var cap := CheckUserUpload(settings, id.key, contentType, size);
      if cap.Err? then Err(cap.error)
      else
        var given := contentType.Some? && contentType.value != "";
        var ct := if given then contentType.value else "application/octet-stream";
        Ok(Job(id, User(sub), ct, map["uploader" := UploaderTag(User(sub))], false, cap.value))
  }

  /** `delete_object` up to its call of the driver. */
  function AdmitDelete(settings: Settings, who: Principal, id: Id): Checked<()>
  {
    var verdict := Validate(id.bucket, id.key, who.Service?, settings.buckets);
    if verdict.Rejected? then Err(ValidationError(Some(verdict.rule)))
    else if who.User? && ServiceOnly(settings, id.key) then Err(PrefixNotAllowed)
    else Ok(())
  }

  /** The rule every admitted write obeys, stated without the handlers' control flow. */
  ghost predicate MayWrite(settings: Settings, who: Principal, id: Id)
  {
    && ValidId(id, settings.buckets)
    && (who.User? ==> !ServiceOnly(settings, id.key) && '@' !in id.key)
  }

  ghost predicate Admissible(settings: Settings, job: Job)
  {
    && MayWrite(settings, job.who, job.id)
    && job.contentType != ""
    && (job.who.Service? ==> job.cap == S2sCap(settings, job.id.key))
    && (job.who.User? ==> UserCap(settings, Some(job.contentType)) == Ok(job.cap) && !job.exclusive)
  }

  lemma UserKeysAreNarrower(settings: Settings, id: Id)
    ensures Validate(id.bucket, id.key, false, settings.buckets).Accepted? <==>
              ValidId(id, settings.buckets) && '@' !in id.key
  {
    AtIsTheOnlyDifference(id.key);
  }

  lemma AdmittedPutIsAdmissible(settings: Settings, caller: string, id: Id, contentType: Option<string>,
                                declared: Option<nat>, upsert: bool)
    requires AdmitPut(settings, caller, id, contentType, declared, upsert).Ok?
    ensures var job := AdmitPut(settings, caller, id, contentType, declared, upsert).value;
            && Admissible(settings, job) && job.who == Service(caller) && job.id == id && job.exclusive == !upsert
            && contentType == Some(job.contentType) && job.contentType != ""
            && job.metadata == map["uploader" := "svc:" + caller]
  {
    hide Validate, S2sCap;
  }

  lemma AdmittedUploadIsAdmissible(settings: Settings, sub: string, id: Id, contentType: Option<string>,
                                   size: Option<nat>)
    requires AdmitUpload(settings, sub, id, contentType, size).Ok?
    ensures var job := AdmitUpload(settings, sub, id, contentType, size).value;
            && Admissible(settings, job) && job.who == User(sub) && job.id == id && !job.exclusive
            && contentType == Some(job.contentType) && job.contentType != ""
            && job.metadata == map["uploader" := "user:" + sub]
  {
    hide ValidateKey, ValidateBucket, Longest;
    UserKeysAreNarrower(settings, id);
    if contentType.None? || contentType.value == "" {
      EmptyMediaType(contentType);
      assert false;
    }
  }

  lemma EmptyMediaType(contentType: Option<string>)
    requires contentType.None? || contentType.value == ""
    ensures MediaType(contentType) == ""
  {
  }

  /** The cap of a service's put is that of the longest configured prefix of its key, or the general one. */
  lemma S2sCapExact(settings: Settings, key: string, entry: Option<string>)
    requires IsLongest(settings.prefixCaps.Keys, key, entry)
    ensures S2sCap(settings, key) == if entry.Some? then settings.prefixCaps[entry.value] else settings.maxObjectBytes
  {
    LongestExact(settings.prefixCaps.Keys, key, entry);
  }

  /** Which PUTs are admitted, why the others are not, and what is handed to the driver. */
  lemma PutAdmittedExactly(settings: Settings, caller: string, id: Id, contentType: Option<string>,
                           declared: Option<nat>, upsert: bool, entry: Option<string>)
    requires IsLongest(settings.prefixCaps.Keys, id.key, entry)
    ensures var admitted := AdmitPut(settings, caller, id, contentType, declared, upsert);
            var valid := ValidateBucket(id.bucket, settings.buckets).Accepted? && InLanguage(id.key, true);
            var typed := contentType.Some? && contentType.value != "";
            var cap := if entry.Some? then settings.prefixCaps[entry.value] else settings.maxObjectBytes;
            var small := declared.Some? ==> declared.value <= cap;
            && (admitted.Ok? <==> valid && typed && small)
            && (admitted.Err? && admitted.error.ValidationError? <==> !valid || !typed)
            && (admitted == Err(PayloadTooLarge) <==> valid && typed && !small)
            && (admitted.Ok? ==>
                  admitted.value == Job(id, Service(caller), contentType.value, map["uploader" := "svc:" + caller],
                                        !upsert, cap))
  {
    hide ValidateKey, ValidateBucket, InLanguage, S2sCap;
    ValidateKeyExact(id.key, true);
    S2sCapExact(settings, id.key, entry);
  }

  /**
   * Which uploads are admitted, why the others are not, and what is handed to the driver. `low` is the media type of
   * the content type, and `entry` the longest configured one it starts with.
   */
  lemma UploadAdmittedExactly(settings: Settings, sub: string, id: Id, contentType: Option<string>, size: Option<nat>,
                              text: string, p: Parts, low: string, entry: Option<string>)
    requires contentType == Some(text) || (contentType.None? && text == "")
    requires IsParts(text, p) && IsLowered(p.core, low) && IsLongest(settings.mimeCaps.Keys, low, entry)
    ensures var admitted := AdmitUpload(settings, sub, id, contentType, size);
            var valid := ValidateBucket(id.bucket, settings.buckets).Accepted? && InLanguage(id.key, false);
            var open := forall i :: 0 <= i < |settings.serviceOnly| ==> !(settings.serviceOnly[i] <= id.key);
            var listed := low != "" && entry.Some?;
            var small := listed && size.Some? ==> size.value <= settings.mimeCaps[entry.value];
            && (admitted.Ok? <==> valid && open && listed && small)
            && (admitted.Err? && admitted.error.ValidationError? <==> !valid)
            && (admitted == Err(PrefixNotAllowed) <==> valid && !open)
            && (admitted == Err(UnsupportedMediaType) <==> valid && open && !listed)
            && (admitted == Err(PayloadTooLarge) <==> valid && open && listed && !small)
            && (admitted.Ok? ==>
                  admitted.value == Job(id, User(sub), text, map["uploader" := "user:" + sub], false,
                                        settings.mimeCaps[entry.value]))
  {
    hide ValidateKey, ValidateBucket, InLanguage, UserCap, IsLowered, IsLongest, Blank;
    ValidateKeyExact(id.key, false);
    UserCapExact(settings, contentType, text, p, low, entry);
    CheckUploadExact(settings, id.key, contentType, size);
  }

  /** The cap of a user's upload is that of the longest configured entry its media type starts with. */
  lemma UserCapExact(settings: Settings, contentType: Option<string>, text: string, p: Parts, low: string,
                     entry: Option<string>)
    requires contentType == Some(text) || (contentType.None? && text == "")
    requires IsParts(text, p) && IsLowered(p.core, low) && IsLongest(settings.mimeCaps.Keys, low, entry)
    ensures UserCap(settings, contentType) ==
            if low != "" && entry.Some? then Ok(settings.mimeCaps[entry.value]) else Err(UnsupportedMediaType)
    ensures low != "" ==> text != ""
  {
    hide MediaType, LongestUpTo;
    MediaTypeExact(contentType, text, p);
    SameLowered(p.core, low, MediaType(contentType));
    LongestExact(settings.mimeCaps.Keys, low, entry);
    if text == "" {
      assert p.core == "";
    }
  }

  lemma CheckUploadExact(settings: Settings, key: string, contentType: Option<string>, size: Option<nat>)
    ensures var checked := CheckUserUpload(settings, key, contentType, size); var cap := UserCap(settings, contentType);
            var closed := exists i :: 0 <= i < |settings.serviceOnly| && settings.serviceOnly[i] <= key;
            && (closed ==> checked == Err(PrefixNotAllowed))
            && (!closed && (cap.Err? || size.None? || size.value <= cap.value) ==> checked == cap)
            && (!closed && cap.Ok? && size.Some? && size.value > cap.value ==> checked == Err(PayloadTooLarge))
  {
    hide UserCap;
  }

  lemma SameLowered(core: string, a: string, b: string)
    requires IsLowered(core, a) && IsLowered(core, b)
    ensures a == b
  {
    forall i | 0 <= i < |core| ensures a[i] == b[i] {
      assert a[i] as int == b[i] as int;
    }
  }

  /** A delete is admitted exactly when its caller may write the key. */
  lemma AdmitDeleteExact(settings: Settings, who: Principal, id: Id)
    ensures AdmitDelete(settings, who, id).Ok? <==> MayWrite(settings, who, id)
  {
    UserKeysAreNarrower(settings, id);
  }

  /** Which deletes are admitted, and why the others are not: users are held to their prefixes and keys without `@`. */
  lemma DeleteAdmittedExactly(settings: Settings, who: Principal, id: Id)
    ensures var admitted := AdmitDelete(settings, who, id);
            var valid := ValidateBucket(id.bucket, settings.buckets).Accepted? && InLanguage(id.key, who.Service?);
            var open := forall i :: 0 <= i < |settings.serviceOnly| ==> !(settings.serviceOnly[i] <= id.key);
            && (admitted.Ok? <==> valid && (who.Service? || open))
            && (admitted == Err(PrefixNotAllowed) <==> valid && who.User? && !open)
            && (admitted.Err? && admitted.error.ValidationError? <==> !valid)
  {
    hide ValidateKey, ValidateBucket, InLanguage;
    ValidateKeyExact(id.key, who.Service?);
  }

  /**
   * A user's upload is refused for its prefix, its media type or its declared size exactly when this is what is wrong
   * with it, judged in that order: the cap is that of the longest matching media-type entry, whatever order they come
   * in.
   */
  lemma UploadRefusedExactly(settings: Settings, key: string, contentType: Option<string>, size: Option<nat>,
                             entry: string)
    requires entry in settings.mimeCaps && IsLongest(settings.mimeCaps.Keys, MediaType(contentType), Some(entry))
    ensures var checked := CheckUserUpload(settings, key, contentType, size);
            && (checked == Err(PrefixNotAllowed) <==>
                  exists i :: 0 <= i < |settings.serviceOnly| && settings.serviceOnly[i] <= key)
            && (checked == Err(UnsupportedMediaType) <==> !ServiceOnly(settings, key) && MediaType(contentType) == "")
            && (checked == Err(PayloadTooLarge) <==>
                  && !ServiceOnly(settings, key) && MediaType(contentType) != ""
                  && size.Some? && size.value > settings.mimeCaps[entry])
            && (checked.Ok? ==> checked.value == settings.mimeCaps[entry])
  {
    LongestExact(settings.mimeCaps.Keys, MediaType(contentType), Some(entry));
  }

  /** Without any matching entry the upload is refused, whatever its size. */
  lemma UnlistedMediaTypeIsRefused(settings: Settings, key: string, contentType: Option<string>, size: Option<nat>)
    requires forall p :: p in settings.mimeCaps ==> !StartsWith(MediaType(contentType), p)
    ensures CheckUserUpload(settings, key, contentType, size) ==
            Err(if ServiceOnly(settings, key) then PrefixNotAllowed else UnsupportedMediaType)
  {
    LongestExact(settings.mimeCaps.Keys, MediaType(contentType), None);
  }
}
