/**
 * Path helpers (src/drivers/paths.py) on strings: `os.path.join`, `os.path.realpath` as lexical
 * normalisation (a tree without symlinks), and the containment check that guards every disk access.
 */
module Paths {
  import opened Strings
  import opened KeyGrammar

  datatype PathResult = Inside(path: string) | Escapes

  predicate Absolute(p: string) { p != "" && p[0] == '/' }

  /** `os.path.join(a, b)`. */
  function PathJoin(a: string, b: string): string
  {
    if Absolute(b) then b
    else if a == "" || Last(a) == '/' then a + b
    else a + "/" + b
  }

  /** One pass over the parts of a path: drop "" and ".", let ".." pop (the root's parent is the root). */
  function Normalize(stack: seq<string>, parts: seq<string>): seq<string>
    decreases parts
  {
    if parts == [] then stack
    else
      var p := parts[0];
      var stack' :=
        if p == "" || p == "." then stack
        else if p == ".." then (if stack == [] then [] else stack[..|stack| - 1])
        else stack + [p];
      Normalize(stack', parts[1..])
  }

  function Resolve(p: string): seq<string> { Normalize([], Split(p, '/')) }

  function Render(segments: seq<string>): string { "/" + Join(segments, '/') }

  /** `os.path.realpath(p)` for an absolute `p`. */
  function RealPath(p: string): string { Render(Resolve(p)) }

  function AssertWithin(root: string, candidate: string): PathResult
  {
    var rootReal := RealPath(root);
    var candReal := RealPath(candidate);
    if candReal != rootReal && !StartsWith(candReal, rootReal + "/") then Escapes else Inside(candReal)
  }

  function ObjectPath(root: string, bucket: string, key: string): PathResult
  {
    var bucketRoot := PathJoin(root, bucket);
    var joined := PathJoin(bucketRoot, key);
    if AssertWithin(bucketRoot, joined).Escapes? then Escapes else Inside(joined)
  }

  function MetaPath(root: string, bucket: string, key: string): PathResult
  {
    var metaRoot := PathJoin(PathJoin(root, ".meta"), bucket);
    var joined := PathJoin(metaRoot, key + ".json");
    if AssertWithin(metaRoot, joined).Escapes? then Escapes else Inside(joined)
  }

  function NewTmpPath(root: string, hex: string): string
  {
    PathJoin(PathJoin(root, ".tmp"), hex)
  }

  // ---- Normal forms --------------------------------------------------------

  /** A segment normalisation keeps. */
  predicate Plain(seg: string) { seg != "" && seg != "." && seg != ".." && '/' !in seg }

  predicate AllPlain(segments: seq<string>) { forall i :: 0 <= i < |segments| ==> Plain(segments[i]) }

  lemma {:induction false} NormalizePlain(stack: seq<string>, parts: seq<string>)
    requires AllPlain(stack)
    requires forall i :: 0 <= i < |parts| ==> '/' !in parts[i]
    ensures AllPlain(Normalize(stack, parts))
    decreases parts
  {
    if parts != [] {
      var p := parts[0];
      var stack' :=
        if p == "" || p == "." then stack
        else if p == ".." then (if stack == [] then [] else stack[..|stack| - 1])
        else stack + [p];
      NormalizePlain(stack', parts[1..]);
    }
  }

  lemma ResolvePlain(p: string)
    ensures AllPlain(Resolve(p))
  {
    NormalizePlain([], Split(p, '/'));
  }

  lemma {:induction false} NormalizeKeepsPlain(stack: seq<string>, parts: seq<string>)
    requires AllPlain(parts)
    ensures Normalize(stack, parts) == stack + parts
    decreases parts
  {
    if parts == [] {
      assert stack + parts == stack;
    } else {
      assert Plain(parts[0]);
      NormalizeKeepsPlain(stack + [parts[0]], parts[1..]);
      assert stack + [parts[0]] + parts[1..] == stack + parts;
    }
  }

  lemma SplitRender(segments: seq<string>)
    requires AllPlain(segments)
    ensures Split(Render(segments), '/') == if segments == [] then ["", ""] else [""] + segments
  {
    var s := Render(segments);
    assert s[1..] == Join(segments, '/') && s[..0] == "";
    SplitAt(s, '/', 0);
    if segments != [] {
      forall i | 0 <= i < |segments| ensures '/' !in segments[i] { assert Plain(segments[i]); }
      SplitOfJoin(segments, '/');
    } else {
      SplitWhole("", '/');
    }
  }

  lemma ResolveRender(segments: seq<string>)
    requires AllPlain(segments)
    ensures Resolve(Render(segments)) == segments
  {
    SplitRender(segments);
    if segments != [] {
      assert ([""] + segments)[1..] == segments;
      NormalizeKeepsPlain([], segments);
      assert [] + segments == segments;
    } else {
      assert ["", ""][1..] == [""];
      assert [""][1..] == [];
    }
  }

  lemma {:induction false} JoinNonEmpty(segments: seq<string>)
    requires AllPlain(segments) && segments != []
    ensures Join(segments, '/') != "" && Join(segments, '/')[0] != '/'
  {
    assert Plain(segments[0]);
    assert Join(segments, '/')[0] == segments[0][0];
    assert segments[0][0] in segments[0];
  }

  lemma {:induction false} JoinAppend(a: seq<string>, b: seq<string>)
    requires a != [] && b != []
    ensures Join(a + b, '/') == Join(a, '/') + "/" + Join(b, '/')
  {
    if |a| == 1 {
      assert (a + b)[1..] == b;
    } else {
      assert (a + b)[1..] == a[1..] + b;
      JoinAppend(a[1..], b);
    }
  }

  // ---- What the string check means -----------------------------------------

  lemma SamePlaceOfSlash(x: string, xs: string, y: string, ys: string)
    requires '/' !in x && '/' !in y
    requires x + "/" + xs <= y + "/" + ys
    ensures |x| == |y|
  {
    var s, t := x + "/" + xs, y + "/" + ys;
    NotInAt(x, '/');
    NotInAt(y, '/');
    assert s[|x|] == '/' && t[|y|] == '/';
    assert forall i :: 0 <= i < |x| ==> s[i] == x[i];
    assert forall i :: 0 <= i < |y| ==> t[i] == y[i];
  }

  lemma FirstSegmentDecides(x: string, xs: string, y: string, ys: string)
    requires '/' !in x && '/' !in y
    requires x + "/" + xs <= y + "/" + ys
    ensures x == y && xs <= ys
  {
    SamePlaceOfSlash(x, xs, y, ys);
    PrefixOfEqualHeads(x, "/" + xs, y, "/" + ys);
    PrefixOfEqualHeads("/", xs, "/", ys);
    assert x + "/" + xs == x + ("/" + xs) && y + "/" + ys == y + ("/" + ys);
  }

  lemma PrefixOfEqualHeads(a: string, as': string, b: string, bs: string)
    requires |a| == |b|
    ensures a + as' <= b + bs <==> a == b && as' <= bs
  {
    if a + as' <= b + bs {
      assert forall i :: 0 <= i < |a| ==> a[i] == (a + as')[i] && (b + bs)[i] == b[i];
      assert forall i :: 0 <= i < |as'| ==> as'[i] == (a + as')[|a| + i] && (b + bs)[|a| + i] == bs[i];
    }
  }

  /**
   * A joined list followed by a slash is a string prefix of another joined list exactly when the list is a proper
   * prefix.
   */
  lemma {:induction false} JoinPrefix(a: seq<string>, b: seq<string>)
    requires AllPlain(a) && AllPlain(b) && a != [] && b != []
    ensures Join(a, '/') + "/" <= Join(b, '/') <==> a < b
  {
    assert Plain(a[0]) && Plain(b[0]);
    if a < b {
      var rest := b[|a|..];
      assert b == a + rest;
      JoinAppend(a, rest);
    }
    if Join(a, '/') + "/" <= Join(b, '/') {
      NotInAt(b[0], '/');
      assert (Join(a, '/') + "/")[|Join(a, '/')|] == '/';
      assert |b| != 1;
      if |a| == 1 {
        assert Join(a, '/') + "/" == a[0] + "/" + "";
        FirstSegmentDecides(a[0], "", b[0], Join(b[1..], '/'));
      } else {
        assert Join(a, '/') + "/" == a[0] + "/" + (Join(a[1..], '/') + "/");
        FirstSegmentDecides(a[0], Join(a[1..], '/') + "/", b[0], Join(b[1..], '/'));
        JoinPrefix(a[1..], b[1..]);
        assert a == [a[0]] + a[1..] && b == [b[0]] + b[1..];
      }
    }
  }

  lemma RenderInjective(a: seq<string>, b: seq<string>)
    requires AllPlain(a) && AllPlain(b) && Render(a) == Render(b)
    ensures a == b
  {
    ResolveRender(a);
    ResolveRender(b);
  }

  lemma RenderPrefix(a: seq<string>, b: seq<string>)
    requires AllPlain(a) && AllPlain(b) && a != []
    ensures Render(a) + "/" <= Render(b) <==> a < b
  {
    var s, t := Join(a, '/') + "/", Join(b, '/');
    assert Render(a) + "/" == "/" + s && Render(b) == "/" + t;
    assert "/" + s <= "/" + t <==> s <= t by {
      assert ("/" + s)[1..] == s && ("/" + t)[1..] == t;
      assert s <= t ==> ("/" + t)[..|s| + 1] == "/" + s;
      if "/" + s <= "/" + t {
        assert forall i :: 0 <= i < |s| ==> s[i] == ("/" + s)[i + 1] && ("/" + t)[i + 1] == t[i];
      }
    }
    JoinNonEmpty(a);
    if b != [] {
      JoinPrefix(a, b);
    }
  }

  /**
   * For arbitrary candidates the string test agrees with containment of the resolved segment lists, except
   * under the root directory itself, where it accepts nothing but the root.
   */
  lemma AssertWithinExact(root: string, candidate: string)
    ensures AssertWithin(root, candidate).Inside? <==>
            Resolve(root) <= Resolve(candidate) && (Resolve(root) != [] || Resolve(candidate) == [])
  {
    var r, c := Resolve(root), Resolve(candidate);
    ResolvePlain(root);
    ResolvePlain(candidate);
    if r == c {
    } else if r != [] {
      RenderPrefix(r, c);
      if Render(r) == Render(c) {
        RenderInjective(r, c);
      }
    } else {
      JoinNonEmpty(c);
      assert Render(c)[1] == Join(c, '/')[0];
      assert ("/" + "/")[1] == '/';
      assert RealPath(root) == "/";
    }
  }

  // ---- Validated keys ------------------------------------------------------

  lemma ValidSegmentsPlain(key: string, allowAt: bool)
    requires ValidateKey(key, allowAt).Accepted?
    ensures AllPlain(Split(key, '/')) && Join(Split(key, '/'), '/') == key
    ensures !Absolute(key)
  {
    AcceptedIsInLanguage(key, allowAt);
    var parts := Split(key, '/');
    forall i | 0 <= i < |parts| ensures Plain(parts[i]) { assert GoodSegment(parts[i], allowAt); }
  }

  lemma ValidBucketPlain(bucket: string, buckets: seq<string>)
    requires ValidateBucket(bucket, buckets).Accepted?
    ensures Plain(bucket) && bucket[0] != '.' && !Absolute(bucket)
  {
    var body := BeforeDollar(bucket);
    assert BucketChar(body[0]) && body[0] == bucket[0];
    assert |bucket| > 2;
    forall i | 0 <= i < |bucket| ensures bucket[i] != '/' {
      assert i < |body| ==> BucketChar(body[i]);
    }
  }

  lemma JoinBelow(root: seq<string>, segments: seq<string>)
    requires AllPlain(root) && AllPlain(segments) && root != [] && segments != []
    ensures PathJoin(Render(root), Join(segments, '/')) == Render(root + segments)
    ensures AllPlain(root + segments)
  {
    JoinNonEmpty(root);
    JoinNonEmpty(segments);
    JoinAppend(root, segments);
    LastOfJoin(root);
  }

  lemma {:induction false} LastOfJoin(segments: seq<string>)
    requires AllPlain(segments) && segments != []
    ensures Join(segments, '/') != "" && Last(Join(segments, '/')) != '/'
  {
    assert Plain(segments[0]);
    if |segments| == 1 {
      assert Last(segments[0]) in segments[0];
    } else {
      LastOfJoin(segments[1..]);
    }
  }

  lemma ExtendLastPlain(segments: seq<string>, tail: string)
    requires AllPlain(segments) && segments != [] && '/' !in tail && |tail| > 2
    ensures AllPlain(ExtendLast(segments, tail))
  {
    assert Plain(Last(segments));
  }

  /**
   * Under a normalised root, a validated key resolves to exactly the segments its text spells: the path
   * never escapes, is already normal, and lies directly below its bucket.
   */
  lemma ValidObjectPath(root: seq<string>, bucket: string, key: string, buckets: seq<string>)
    requires AllPlain(root) && root != []
    requires Validate(bucket, key, true, buckets).Accepted?
    ensures var p := root + [bucket] + Split(key, '/');
            AllPlain(p) && ObjectPath(Render(root), bucket, key) == Inside(Render(p)) && Resolve(Render(p)) == p
  {
    ValidBucketPlain(bucket, buckets);
    ValidSegmentsPlain(key, true);
    JoinBelow(root, [bucket]);
    JoinBelow(root + [bucket], Split(key, '/'));
    Contained(root + [bucket], Split(key, '/'));
  }

  lemma Contained(base: seq<string>, below: seq<string>)
    requires AllPlain(base) && AllPlain(below) && base != []
    ensures AllPlain(base + below)
    ensures Resolve(Render(base + below)) == base + below
    ensures AssertWithin(Render(base), Render(base + below)).Inside?
  {
    ResolveRender(base);
    ResolveRender(base + below);
    AssertWithinExact(Render(base), Render(base + below));
  }

  lemma ValidMetaPath(root: seq<string>, bucket: string, key: string, buckets: seq<string>)
    requires AllPlain(root) && root != []
    requires Validate(bucket, key, true, buckets).Accepted?
    ensures var p := root + [".meta", bucket] + Split(key + ".json", '/');
            AllPlain(p) && MetaPath(Render(root), bucket, key) == Inside(Render(p)) && Resolve(Render(p)) == p
  {
    ValidBucketPlain(bucket, buckets);
    ValidSegmentsPlain(key, true);
    MetaBelow(root, ".meta", bucket, key, ".json");
  }

  lemma MetaBelow(root: seq<string>, metaDir: string, bucket: string, key: string, tail: string)
    requires AllPlain(root) && root != [] && Plain(metaDir) && Plain(bucket)
    requires AllPlain(Split(key, '/')) && '/' !in tail && |tail| > 2
    ensures var p := root + [metaDir, bucket] + Split(key + tail, '/');
            var base := PathJoin(PathJoin(Render(root), metaDir), bucket);
            && AllPlain(p) && Resolve(Render(p)) == p
            && PathJoin(base, key + tail) == Render(p)
            && AssertWithin(base, Render(p)).Inside?
  {
    var parts := Split(key + tail, '/');
    SplitAppend(key, tail, '/');
    ExtendLastPlain(Split(key, '/'), tail);
    JoinOfSplit(key + tail, '/');
    assert Join([metaDir], '/') == metaDir && Join([bucket], '/') == bucket;
    JoinBelow(root, [metaDir]);
    JoinBelow(root + [metaDir], [bucket]);
    assert root + [metaDir] + [bucket] == root + [metaDir, bucket];
    JoinBelow(root + [metaDir, bucket], parts);
    Contained(root + [metaDir, bucket], parts);
  }

  /** The paths of distinct validated objects are distinct strings. */
  lemma ObjectPathInjective(root: seq<string>, b1: string, k1: string, b2: string, k2: string, buckets: seq<string>)
    requires AllPlain(root) && root != []
    requires Validate(b1, k1, true, buckets).Accepted? && Validate(b2, k2, true, buckets).Accepted?
    ensures ObjectPath(Render(root), b1, k1) == ObjectPath(Render(root), b2, k2) <==> b1 == b2 && k1 == k2
  {
    ValidObjectPath(root, b1, k1, buckets);
    ValidObjectPath(root, b2, k2, buckets);
    SameRendering(root, b1, k1, b2, k2);
  }

  /** And so are those of their sidecars. */
  lemma MetaPathInjective(root: seq<string>, b1: string, k1: string, b2: string, k2: string, buckets: seq<string>)
    requires AllPlain(root) && root != []
    requires Validate(b1, k1, true, buckets).Accepted? && Validate(b2, k2, true, buckets).Accepted?
    ensures MetaPath(Render(root), b1, k1) == MetaPath(Render(root), b2, k2) <==> b1 == b2 && k1 == k2
  {
    ValidMetaPath(root, b1, k1, buckets);
    ValidMetaPath(root, b2, k2, buckets);
    SameMetaRendering(root, ".meta", b1, k1, b2, k2, ".json");
  }

  lemma SameMetaRendering(root: seq<string>, dir: string, b1: string, k1: string, b2: string, k2: string, tail: string)
    requires AllPlain(root + [dir, b1] + Split(k1 + tail, '/')) && AllPlain(root + [dir, b2] + Split(k2 + tail, '/'))
    ensures Render(root + [dir, b1] + Split(k1 + tail, '/')) == Render(root + [dir, b2] + Split(k2 + tail, '/')) <==>
            b1 == b2 && k1 == k2
  {
    assert root + [dir, b1] == root + [dir] + [b1] && root + [dir, b2] == root + [dir] + [b2];
    SameRendering(root + [dir], b1, k1 + tail, b2, k2 + tail);
    AppendInjective(k1, k2, tail);
  }

  lemma AppendInjective(a: string, b: string, tail: string)
    ensures a + tail == b + tail <==> a == b
  {
    if a + tail == b + tail {
      assert a == (a + tail)[..|a|] && b == (b + tail)[..|b|];
    }
  }

  lemma SameRendering(base: seq<string>, b1: string, k1: string, b2: string, k2: string)
    requires AllPlain(base + [b1] + Split(k1, '/')) && AllPlain(base + [b2] + Split(k2, '/'))
    ensures Render(base + [b1] + Split(k1, '/')) == Render(base + [b2] + Split(k2, '/')) <==> b1 == b2 && k1 == k2
  {
    var p1, p2 := base + [b1] + Split(k1, '/'), base + [b2] + Split(k2, '/');
    if Render(p1) == Render(p2) {
      RenderInjective(p1, p2);
      TailsEqual(base, b1, Split(k1, '/'), b2, Split(k2, '/'));
      JoinOfSplit(k1, '/');
      JoinOfSplit(k2, '/');
    }
  }

  lemma TailsEqual(root: seq<string>, x: string, xs: seq<string>, y: string, ys: seq<string>)
    requires root + [x] + xs == root + [y] + ys
    ensures x == y && xs == ys
  {
    var p, q := root + [x] + xs, root + [y] + ys;
    assert p[|root|] == x && q[|root|] == y;
    assert p[|root| + 1..] == xs && q[|root| + 1..] == ys;
  }

  // ---- What paths mean, segment by segment ----------------------------------

  lemma {:induction false} NormalizeAppend(stack: seq<string>, parts: seq<string>, last: string)
    ensures Normalize(stack, parts + [last]) == Normalize(Normalize(stack, parts), [last])
    decreases parts
  {
    if parts == [] {
      assert parts + [last] == [last];
    } else {
      var p := parts[0];
      var stack' :=
        if p == "" || p == "." then stack
        else if p == ".." then (if stack == [] then [] else stack[..|stack| - 1])
        else stack + [p];
      assert (parts + [last])[1..] == parts[1..] + [last];
      NormalizeAppend(stack', parts[1..], last);
    }
  }

  lemma {:induction false} SplitSnoc(s: string, last: string)
    requires '/' !in last
    ensures Split(s + "/" + last, '/') == Split(s, '/') + [last]
    decreases |s|
  {
    hide Split;
    var i := IndexOf(s, '/');
    if i == |s| {
      SplitWhole(s, '/');
      SplitWhole(last, '/');
      SplitCons(s, last, '/');
    } else {
      var rest := s[i + 1..];
      SplitSnoc(rest, last);
      SplitAt(s, '/', i);
      SplitShifted(s, "/" + last, '/', i);
      assert s + ("/" + last) == s + "/" + last && rest + ("/" + last) == rest + "/" + last;
    }
  }

  /**
   * What a path resolves to, from its last segment back: an empty segment and `.` change nothing, `..` drops the last
   * directory, if there is one, and any other segment is appended.
   */
  lemma ResolveExact(path: string, last: string)
    requires '/' !in last
    ensures Resolve("") == [] && Resolve(last) == Resolve("/" + last)
    ensures var above := Resolve(path);
            Resolve(path + "/" + last) ==
            if last == "" || last == "." then above
            else if last == ".." then (if above == [] then [] else above[..|above| - 1])
            else above + [last]
  {
    hide Split;
    SplitSnoc(path, last);
    NormalizeAppend([], Split(path, '/'), last);
    assert [last][1..] == [];
    SplitWhole("", '/');
    SplitWhole(last, '/');
    SplitSnoc("", last);
    assert "" + "/" + last == "/" + last;
    assert ["", last][1..] == [last] && [""][1..] == [];
  }

  /**
   * For any key, whatever segments it has: the object path is handed out exactly when it resolves to the bucket's
   * directory or below, and is then the text of root, bucket and key.
   */
  lemma ObjectPathExact(root: seq<string>, bucket: string, key: string)
    requires AllPlain(root) && root != [] && Plain(bucket)
    ensures var text := if Absolute(key) then key else Render(root) + "/" + bucket + "/" + key;
            ObjectPath(Render(root), bucket, key) ==
            if root + [bucket] <= Resolve(text) then Inside(text) else Escapes
  {
    hide Resolve;
    var below := root + [bucket];
    JoinBelow(root, [bucket]);
    ResolveRender(below);
    JoinNonEmpty(below);
    LastOfJoin(below);
    JoinAppend(root, [bucket]);
    assert Render(below) == Render(root) + "/" + bucket;
    AssertWithinExact(Render(below), PathJoin(Render(below), key));
  }

  /** One `..` is enough to leave the bucket, and is stopped. */
  lemma TraversalIsStopped(root: seq<string>, bucket: string, name: string)
    requires AllPlain(root) && root != [] && Plain(bucket) && Plain(name) && name != bucket
    ensures ObjectPath(Render(root), bucket, "../" + name) == Escapes
  {
    hide Resolve;
    var below := root + [bucket];
    var text := Render(root) + "/" + bucket + "/" + "../" + name;
    JoinBelow(root, [bucket]);
    JoinAppend(root, [bucket]);
    assert Render(below) == Render(root) + "/" + bucket;
    ResolveRender(below);
    ResolveExact(Render(below), "..");
    ResolveExact(Render(below) + "/" + "..", name);
    assert text == Render(below) + "/" + ".." + "/" + name;
    assert text == Render(root) + "/" + bucket + "/" + ("../" + name);
    assert (root + [name])[|root|] == name && below[|root|] == bucket;
    ObjectPathExact(root, bucket, "../" + name);
  }

  lemma SlashJoins(a: string, b: string, c: string)
    requires a != "" && Last(a) != '/' && b != "" && Last(b) != '/' && !Absolute(b) && !Absolute(c)
    ensures PathJoin(PathJoin(a, b), c) == a + "/" + b + "/" + c
    ensures a + "/" + b != "" && Last(a + "/" + b) != '/' && PathJoin(a, b) == a + "/" + b
  {
  }

  lemma SlashJoinsTwice(a: string, dir: string, b: string, c: string, tail: string)
    requires a != "" && Last(a) != '/' && b != "" && Last(b) != '/' && !Absolute(b) && c != "" && !Absolute(c)
    requires dir != "" && Last(dir) != '/' && !Absolute(dir)
    ensures PathJoin(PathJoin(PathJoin(a, dir), b), c + tail) == a + ("/" + dir + "/") + b + "/" + c + tail
  {
    SlashJoins(a, dir, b);
    assert (c + tail)[0] == c[0];
    SlashJoins(a + "/" + dir, b, c + tail);
    assert a + "/" + dir + "/" + b + "/" + (c + tail) == a + ("/" + dir + "/") + b + "/" + c + tail;
  }

  lemma StagingText(a: string, dir: string, hex: string)
    requires a != "" && Last(a) != '/' && dir != "" && Last(dir) != '/' && !Absolute(dir) && !Absolute(hex)
    ensures PathJoin(PathJoin(a, dir), hex) == a + ("/" + dir + "/") + hex
  {
    SlashJoins(a, dir, hex);
    assert a + "/" + dir + "/" + hex == a + ("/" + dir + "/") + hex;
  }

  lemma RenderEnds(root: seq<string>)
    requires AllPlain(root) && root != []
    ensures Render(root) != "" && Last(Render(root)) != '/'
  {
    JoinNonEmpty(root);
    LastOfJoin(root);
  }

  /** The texts of the paths a validated key gets. */
  lemma PathTexts(root: seq<string>, bucket: string, key: string, hex: string, buckets: seq<string>)
    requires AllPlain(root) && root != [] && Plain(hex)
    requires Validate(bucket, key, true, buckets).Accepted?
    ensures ObjectPath(Render(root), bucket, key) == Inside(Render(root) + "/" + bucket + "/" + key)
    ensures MetaPath(Render(root), bucket, key) == Inside(Render(root) + "/.meta/" + bucket + "/" + key + ".json")
    ensures NewTmpPath(Render(root), hex) == Render(root) + "/.tmp/" + hex
  {
    hide ValidateKey, Split, PathJoin, Render, AssertWithin;
    ValidObjectPath(root, bucket, key, buckets);
    ValidMetaPath(root, bucket, key, buckets);
    ValidSegmentsPlain(key, true);
    ValidBucketPlain(bucket, buckets);
    RenderEnds(root);
    PlainEnds(bucket);
    KeyIsNotEmpty(key);
    PlainEnds(hex);
    SlashJoins(Render(root), bucket, key);
    SlashJoinsTwice(Render(root), ".meta", bucket, key, ".json");
    StagingText(Render(root), ".tmp", hex);
    assert "/" + ".meta" + "/" == "/.meta/" && "/" + ".tmp" + "/" == "/.tmp/";
  }

  lemma PlainEnds(seg: string)
    requires Plain(seg)
    ensures seg != "" && Last(seg) != '/' && !Absolute(seg)
  {
    assert Last(seg) in seg && seg[0] in seg;
  }

  lemma KeyIsNotEmpty(key: string)
    requires ValidateKey(key, true).Accepted?
    ensures key != ""
  {
  }

  /** Whatever the key, the driver touches no object path outside its bucket's directory. */
  lemma ObjectPathNeverEscapes(root: string, bucket: string, key: string)
    requires ObjectPath(root, bucket, key).Inside?
    ensures Resolve(PathJoin(root, bucket)) <= Resolve(ObjectPath(root, bucket, key).path)
  {
    AssertWithinExact(PathJoin(root, bucket), PathJoin(PathJoin(root, bucket), key));
  }
}
