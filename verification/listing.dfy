/**
 * Cursor pagination (`list` in src/drivers/local_fs.py). A page sorts what a walk of the bucket found, keeps the
 * keys above the cursor, cuts at the limit, and drops the keys whose `head` has nothing to say any more.
 */
module Listing {
  import opened Strings
  import opened Options
  import Paths

  // ---- The order of Python's strings ---------------------------------------

  /** Lexicographic by code point. */
  predicate Before(a: string, b: string)
  {
    b != "" && (a == "" || a[0] < b[0] || (a[0] == b[0] && Before(a[1..], b[1..])))
  }

  lemma {:induction false} NotBeforeItself(a: string)
    ensures !Before(a, a)
  {
    if a != "" {
      NotBeforeItself(a[1..]);
    }
  }

  lemma {:induction false} BeforeChains(a: string, b: string, c: string)
    requires Before(a, b) && Before(b, c)
    ensures Before(a, c)
  {
    if a != "" && a[0] == b[0] == c[0] {
      BeforeChains(a[1..], b[1..], c[1..]);
    }
  }

  lemma {:induction false} BeforeDecides(a: string, b: string)
    ensures a == b || Before(a, b) || Before(b, a)
  {
    if a != "" && b != "" && a[0] == b[0] {
      BeforeDecides(a[1..], b[1..]);
      assert a == [a[0]] + a[1..] && b == [b[0]] + b[1..];
    }
  }

  /** `a < b`, written out: they agree up to some place, where `a` has ended or has the smaller character. */
  ghost predicate Smaller(a: string, b: string)
  {
    exists n :: 0 <= n <= |a| && n < |b| && a[..n] == b[..n] && (n == |a| || a[n] < b[n])
  }

  /** The recursive comparison is that order. */
  lemma {:induction false} BeforeExact(a: string, b: string)
    ensures Before(a, b) <==>
            exists n :: 0 <= n <= |a| && n < |b| && a[..n] == b[..n] && (n == |a| || a[n] < b[n])
  {
    if Smaller(a, b) {
      var n :| 0 <= n <= |a| && n < |b| && a[..n] == b[..n] && (n == |a| || a[n] < b[n]);
      if n > 0 {
        assert a[..n][0] == b[..n][0];
        assert a[1..][..n - 1] == a[..n][1..] && b[1..][..n - 1] == b[..n][1..];
        assert Smaller(a[1..], b[1..]);
        BeforeExact(a[1..], b[1..]);
      }
    }
    if Before(a, b) {
      if a == "" || a[0] < b[0] {
        assert a[..0] == b[..0];
      } else {
        BeforeExact(a[1..], b[1..]);
        var m :| 0 <= m <= |a| - 1 && m < |b| - 1 && a[1..][..m] == b[1..][..m]
                 && (m == |a| - 1 || a[1..][m] < b[1..][m]);
        assert a[..m + 1] == [a[0]] + a[1..][..m] && b[..m + 1] == [b[0]] + b[1..][..m];
      }
    }
  }

  ghost predicate Ascending(s: seq<string>)
  {
    forall i, j :: 0 <= i < j < |s| ==> Before(s[i], s[j])
  }

  lemma AscendingExact(s: seq<string>)
    ensures Ascending(s) <==> forall i, j :: 0 <= i < j < |s| ==> Smaller(s[i], s[j])
  {
    hide Before, Smaller;
    forall i, j | 0 <= i < j < |s| ensures Before(s[i], s[j]) <==> Smaller(s[i], s[j]) {
      BeforeIsSmaller(s[i], s[j]);
    }
  }

  lemma BeforeIsSmaller(a: string, b: string)
    ensures Before(a, b) <==> Smaller(a, b)
  {
    hide Before;
    BeforeExact(a, b);
  }

  ghost predicate Least(S: set<string>, m: string)
  {
    m in S && forall k :: k in S && k != m ==> Before(m, k)
  }

  lemma {:induction false} LeastExists(S: set<string>)
    requires S != {}
    ensures exists m :: Least(S, m)
  {
    hide Before;
    var x :| x in S;
    var rest := S - {x};
    if rest == {} {
      assert forall k :: k in S ==> k == x || k in rest;
      assert Least(S, x);
    } else {
      LeastExists(rest);
      var m :| Least(rest, m);
      BeforeDecides(x, m);
      if Before(x, m) {
        forall k | k in S && k != x ensures Before(x, k) {
          if k != m {
            BeforeChains(x, m, k);
          }
        }
        assert Least(S, x);
      } else {
        assert Least(S, m);
      }
    }
  }

  /** `sorted(keys)`. */
  ghost function SortedOf(S: set<string>): (r: seq<string>)
    ensures Ascending(r) && |r| == |S|
    ensures forall k :: k in r <==> k in S
  {
    if S == {} then []
    else
      LeastExists(S);
      var m :| Least(S, m);
      [m] + SortedOf(S - {m})
  }

  /** An ascending list is determined by its elements. */
  lemma {:induction false} AscendingUnique(a: seq<string>, b: seq<string>)
    requires Ascending(a) && Ascending(b) && forall k :: k in a <==> k in b
    ensures a == b
  {
    hide Before;
    if a == [] {
      assert forall i :: 0 <= i < |b| ==> b[i] in b;
    } else {
      assert a[0] in b;
      assert b[0] in a;
      FirstIsLeast(a, b[0]);
      FirstIsLeast(b, a[0]);
      NotBoth(a[0], b[0]);
      forall k ensures k in a[1..] <==> k in b[1..] {
        TailElements(a, k);
        TailElements(b, k);
      }
      AscendingUnique(a[1..], b[1..]);
      assert a == [a[0]] + a[1..] && b == [b[0]] + b[1..];
    }
  }

  lemma NotBoth(a: string, b: string)
    requires (a == b || Before(a, b)) && (a == b || Before(b, a))
    ensures a == b
  {
    if a != b {
      BeforeChains(a, b, a);
      NotBeforeItself(a);
      assert false;
    }
  }

  lemma FirstIsLeast(s: seq<string>, k: string)
    requires Ascending(s) && k in s
    ensures s[0] == k || Before(s[0], k)
  {
    hide Before;
    var i :| 0 <= i < |s| && s[i] == k;
  }

  lemma TailElements(s: seq<string>, k: string)
    requires Ascending(s) && s != []
    ensures k in s[1..] <==> k in s && k != s[0]
  {
    hide Before;
    NotBeforeItself(s[0]);
    if k in s && k != s[0] {
      var i :| 0 <= i < |s| && s[i] == k;
      assert s[1..][i - 1] == k;
    }
  }

  /** `keys.sort()` on distinct keys. */
  method Sort(keys: seq<string>) returns (sorted: seq<string>)
    requires forall i, j :: 0 <= i < j < |keys| ==> keys[i] != keys[j]
    ensures sorted == SortedOf(set k | k in keys)
    ensures multiset(sorted) == multiset(keys)
    ensures forall i, j :: 0 <= i < j < |sorted| ==> Smaller(sorted[i], sorted[j])
  {
    hide Before, SortedOf, Smaller;
    sorted := [];
    for i := 0 to |keys|
      invariant Ascending(sorted) && multiset(sorted) == multiset(keys[..i])
    {
      assert keys[..i + 1] == keys[..i] + [keys[i]];
      assert keys[i] !in multiset(keys[..i]);
      sorted := Insert(sorted, keys[i]);
    }
    assert keys[..|keys|] == keys;
    SameElements(sorted, keys);
    AscendingExact(sorted);
    AscendingUnique(sorted, SortedOf(set k | k in keys));
  }

  lemma SameElements(a: seq<string>, b: seq<string>)
    requires multiset(a) == multiset(b)
    ensures forall k :: k in a <==> k in b
  {
    forall k ensures k in a <==> k in b {
      assert k in a <==> k in multiset(a);
    }
  }

  method Insert(keys: seq<string>, k: string) returns (more: seq<string>)
    requires Ascending(keys) && k !in keys
    ensures Ascending(more) && multiset(more) == multiset(keys) + multiset{k}
  {
    hide Before;
    var i := 0;
    while i < |keys| && Before(keys[i], k)
      invariant 0 <= i <= |keys|
      invariant forall j :: 0 <= j < i ==> Before(keys[j], k)
    {
      i := i + 1;
    }
    more := keys[..i] + [k] + keys[i..];
    forall j | i <= j < |keys| ensures Before(k, keys[j]) {
      BeforeDecides(keys[i], k);
      if i < j {
        BeforeChains(k, keys[i], keys[j]);
      }
    }
    assert keys == keys[..i] + keys[i..];
  }

  // ---- One page ------------------------------------------------------------

  /** The filter the walk applies to full paths. `bucketRoot` is the bucket's directory. */
  predicate Selects(bucketRoot: string, prefix: string, key: string)
  {
    StartsWith(bucketRoot + "/" + key, Paths.PathJoin(bucketRoot, prefix))
  }

  /** The filter is `key.startswith(prefix)` for every prefix that is not absolute. */
  lemma SelectsRelative(bucketRoot: string, prefix: string, key: string)
    requires bucketRoot != "" && Last(bucketRoot) != '/' && !Paths.Absolute(prefix)
    ensures Selects(bucketRoot, prefix, key) <==> StartsWith(key, prefix)
  {
    BelowRoot(bucketRoot + "/", prefix, key);
    assert bucketRoot + "/" + prefix == Paths.PathJoin(bucketRoot, prefix);
  }

  lemma BelowRoot(root: string, prefix: string, key: string)
    ensures root + prefix <= root + key <==> prefix <= key
  {
    assert (root + key)[|root|..] == key && (root + prefix)[|root|..] == prefix;
    if root + prefix <= root + key {
      assert (root + key)[..|root + prefix|] == root + prefix;
      assert key[..|prefix|] == (root + key)[|root|..|root + prefix|] == prefix;
    }
    if prefix <= key {
      assert (root + key)[..|root + prefix|] == root + key[..|prefix|];
    }
  }

  /**
   * An absolute prefix that is the beginning of the bucket's directory, or that names keys below it by their full
   * path.
   */
  predicate Misread(bucketRoot: string, prefix: string)
  {
    var root := bucketRoot + "/";
    && Paths.Absolute(prefix)
    && (prefix <= root || (root <= prefix && prefix[|root|] != '/'))
  }

  /**
   * An absolute prefix replaces the bucket's directory in `os.path.join` and is compared with full paths. The filter is
   * then still the one on keys, for all keys, exactly when the prefix is neither the beginning of the directory nor a
   * full path below it.
   */
  lemma SelectsExact(bucketRoot: string, prefix: string)
    requires bucketRoot != "" && Last(bucketRoot) != '/'
    ensures (forall key :: key != "" && !Paths.Absolute(key) ==>
              (Selects(bucketRoot, prefix, key) <==> StartsWith(key, prefix)))
            <==> !Misread(bucketRoot, prefix)
  {
    hide Selects, Misread;
    if Misread(bucketRoot, prefix) {
      var key := MisreadKey(bucketRoot, prefix);
    } else {
      forall key | key != "" && !Paths.Absolute(key)
        ensures Selects(bucketRoot, prefix, key) <==> StartsWith(key, prefix)
      {
        WellRead(bucketRoot, prefix, key);
      }
    }
  }

  lemma MisreadKey(bucketRoot: string, prefix: string) returns (key: string)
    requires Misread(bucketRoot, prefix)
    ensures key != "" && !Paths.Absolute(key) && Selects(bucketRoot, prefix, key) && !StartsWith(key, prefix)
  {
    var root := bucketRoot + "/";
    if prefix <= root {
      key := "a";
      assert (root + key)[..|root|] == root;
    } else {
      key := prefix[|root|..];
      assert root + key == prefix;
    }
  }

  lemma WellRead(bucketRoot: string, prefix: string, key: string)
    requires bucketRoot != "" && Last(bucketRoot) != '/' && !Misread(bucketRoot, prefix) && !Paths.Absolute(key)
    ensures Selects(bucketRoot, prefix, key) <==> StartsWith(key, prefix)
  {
    if !Paths.Absolute(prefix) {
      SelectsRelative(bucketRoot, prefix, key);
    } else {
      var root := bucketRoot + "/";
      if prefix <= root + key {
        FullPathPrefix(root, prefix, key);
      }
    }
  }

  lemma FullPathPrefix(root: string, prefix: string, key: string)
    requires prefix <= root + key
    ensures prefix <= root || (root <= prefix && key != "" && prefix[|root|] == key[0])
  {
    assert (root + key)[..|prefix|] == prefix;
    if |prefix| <= |root| {
      assert root[..|prefix|] == prefix;
    } else {
      assert prefix[..|root|] == root;
    }
  }

  /** An absolute prefix can select every key although none starts with it. */
  lemma SlashPrefixSelectsEverything(bucketRoot: string, key: string)
    requires Paths.Absolute(bucketRoot) && !Paths.Absolute(key)
    ensures Selects(bucketRoot, "/", key) && !StartsWith(key, "/")
  {
    assert (bucketRoot + "/" + key)[0] == '/';
  }

  /** `if cursor:` treats the empty cursor like none. */
  predicate Past(cursor: Option<string>, key: string)
  {
    cursor.None? || cursor.value == "" || Before(cursor.value, key)
  }

  /** What one page saw: the keys its walk found, and the keys whose `head` then answered. */
  datatype Round = Round(found: set<string>, alive: set<string>, limit: nat)

  datatype Page = Page(keys: seq<string>, next: Option<string>)

  ghost function Candidates(found: set<string>, prefix: string, cursor: Option<string>): seq<string>
  {
    SortedOf(set k | k in found && StartsWith(k, prefix) && Past(cursor, k))
  }

  function Cut(keys: seq<string>, limit: nat): seq<string> { if |keys| > limit then keys[..limit] else keys }

  function Alive(keys: seq<string>, alive: set<string>): seq<string>
  {
    if keys == [] then []
    else Alive(keys[..|keys| - 1], alive) + if Last(keys) in alive then [Last(keys)] else []
  }

  function PageFrom(all: seq<string>, alive: set<string>, limit: nat): Page
  {
    var page := Cut(all, limit);
    Page(Alive(page, alive), if |all| > limit && page != [] then Some(Last(page)) else None)
  }

  ghost function PageOf(r: Round, prefix: string, cursor: Option<string>): Page
  {
    PageFrom(Candidates(r.found, prefix, cursor), r.alive, r.limit)
  }

  lemma {:induction false} AliveMeets(keys: seq<string>, alive: set<string>)
    requires Ascending(keys)
    ensures Ascending(Alive(keys, alive))
    ensures forall k :: k in Alive(keys, alive) <==> k in keys && k in alive
  {
    hide Before;
    if keys != [] {
      AliveMeets(keys[..|keys| - 1], alive);
      var rest := Alive(keys[..|keys| - 1], alive);
      assert keys == keys[..|keys| - 1] + [Last(keys)];
      forall k | k in rest ensures Before(k, Last(keys)) {
        var i :| 0 <= i < |keys| - 1 && keys[i] == k;
      }
    }
  }

  /** `[k for k in all_keys if k > cursor]`. */
  method AboveCursor(keys: seq<string>, cursor: Option<string>) returns (above: seq<string>)
    requires Ascending(keys)
    ensures above == SortedOf(set k | k in keys && Past(cursor, k))
    ensures forall i, j :: 0 <= i < j < |above| ==> Smaller(above[i], above[j])
    ensures forall k :: k in above <==>
              k in keys && (cursor.None? || cursor.value == "" || Smaller(cursor.value, k))
  {
    hide Before, SortedOf, Past, Smaller;
    above := [];
    for i := 0 to |keys|
      invariant Ascending(above) && forall k :: k in above <==> k in keys[..i] && Past(cursor, k)
    {
      if Past(cursor, keys[i]) {
        forall k | k in above ensures Before(k, keys[i]) {
          var j :| 0 <= j < i && keys[j] == k;
        }
        above := above + [keys[i]];
      }
      assert keys[..i + 1] == keys[..i] + [keys[i]];
    }
    AscendingUnique(above, SortedOf(set k | k in keys && Past(cursor, k)));
    AscendingExact(above);
    forall k ensures Past(cursor, k) <==> cursor.None? || cursor.value == "" || Smaller(cursor.value, k) {
      PastExact(cursor, k);
    }
  }

  lemma PastExact(cursor: Option<string>, key: string)
    ensures Past(cursor, key) <==> cursor.None? || cursor.value == "" || Smaller(cursor.value, key)
  {
    hide Before, Smaller;
    if cursor.Some? {
      BeforeIsSmaller(cursor.value, key);
    }
  }

  /** The keys a page may report. */
  ghost function Matches(found: set<string>, prefix: string, cursor: Option<string>): set<string>
  {
    set k | k in found && prefix <= k && (cursor.None? || cursor.value == "" || Smaller(cursor.value, k))
  }

  /** How many of them come before `key`. */
  ghost function Rank(all: set<string>, key: string): nat { |set q | q in all && Smaller(q, key)| }

  /**
   * One page, written out: those of the first `limit` matching keys whose `head` answered, ascending; and, exactly when
   * more keys match and the limit is not zero, the last of those first keys as the cursor.
   */
  lemma PageExact(r: Round, prefix: string, cursor: Option<string>)
    ensures var page := PageOf(r, prefix, cursor); var all := Matches(r.found, prefix, cursor);
            && (forall i, j :: 0 <= i < j < |page.keys| ==> Smaller(page.keys[i], page.keys[j]))
            && (forall k :: k in page.keys <==> k in all && k in r.alive && Rank(all, k) < r.limit)
            && (page.next.Some? <==> 0 < r.limit < |all|)
            && (page.next.Some? ==> page.next.value in all && Rank(all, page.next.value) == r.limit - 1)
  {
    hide Before, SortedOf, Past, Smaller;
    var all := Matches(r.found, prefix, cursor);
    var sorted := Candidates(r.found, prefix, cursor);
    var cut := Cut(sorted, r.limit);
    forall k ensures Past(cursor, k) <==> cursor.None? || cursor.value == "" || Smaller(cursor.value, k) {
      PastExact(cursor, k);
    }
    assert (set k | k in r.found && StartsWith(k, prefix) && Past(cursor, k)) == all;
    forall i | 0 <= i < |sorted| ensures sorted[i] in all && Rank(all, sorted[i]) == i {
      RankOf(sorted, all, i);
    }
    forall k ensures k in cut <==> k in all && Rank(all, k) < r.limit {
      if k in cut {
        var i :| 0 <= i < |cut| && cut[i] == k;
        assert sorted[i] == k;
      }
      if k in all && Rank(all, k) < r.limit {
        var i :| 0 <= i < |sorted| && sorted[i] == k;
        assert cut[i] == k;
      }
    }
    AliveMeets(cut, r.alive);
    AscendingExact(Alive(cut, r.alive));
  }

  lemma RankOf(sorted: seq<string>, all: set<string>, i: nat)
    requires Ascending(sorted) && i < |sorted| && forall k :: k in sorted <==> k in all
    ensures sorted[i] in all && Rank(all, sorted[i]) == i
  {
    hide Before, SortedOf, Smaller;
    var below := set q | q in all && Smaller(q, sorted[i]);
    forall q ensures q in sorted[..i] <==> q in below {
      BeforeIsSmaller(q, sorted[i]);
      if q in below {
        var j :| 0 <= j < |sorted| && sorted[j] == q;
        AboveIsBehind(sorted, i, j);
        assert sorted[..i][j] == q;
      }
      if q in sorted[..i] {
        var j :| 0 <= j < i && sorted[j] == q;
      }
    }
    AscendingUnique(SortedOf(below), sorted[..i]);
  }

  // ---- Many pages, over a store that changes -------------------------------

  /** What a walk over many pages reports: each page starts at the cursor the one before returned. */
  ghost function Reported(rounds: seq<Round>, prefix: string, cursor: Option<string>): seq<string>
  {
    if rounds == [] then []
    else
      var p := PageOf(rounds[0], prefix, cursor);
      p.keys + if p.next.Some? then Reported(rounds[1..], prefix, p.next) else []
  }

  /** The walk went on exactly until a page returned no cursor. */
  ghost predicate Complete(rounds: seq<Round>, prefix: string, cursor: Option<string>)
  {
    && rounds != []
    && var p := PageOf(rounds[0], prefix, cursor);
       if p.next.Some? then Complete(rounds[1..], prefix, p.next) else |rounds| == 1
  }

  /** Every page has room for a key, and no key is empty. */
  ghost predicate Sound(rounds: seq<Round>)
  {
    forall i :: 0 <= i < |rounds| ==> rounds[i].limit >= 1 && "" !in rounds[i].found
  }

  /**
   * What one page contributes: some of its candidates, none above the cursor it returns, and all above it are still
   * to come.
   */
  lemma PageSplits(r: Round, prefix: string, cursor: Option<string>)
    requires r.limit >= 1 && "" !in r.found
    ensures var p := PageOf(r, prefix, cursor); var all := Candidates(r.found, prefix, cursor);
            && Ascending(p.keys)
            && (forall k :: k in p.keys ==> k in all && k in r.alive)
            && (p.next.None? ==> forall k :: k in all && k in r.alive ==> k in p.keys)
            && (p.next.Some? ==>
                  && |all| > r.limit && p.next.value in all && p.next.value == all[r.limit - 1] && p.next.value != ""
                  && (forall k :: k in p.keys ==> k == p.next.value || Before(k, p.next.value))
                  && (forall k :: k in all && k in r.alive && k !in p.keys ==> Before(p.next.value, k)))
  {
    hide Before, SortedOf;
    var all := Candidates(r.found, prefix, cursor);
    var page := Cut(all, r.limit);
    assert Ascending(page);
    AliveMeets(page, r.alive);
    if |all| > r.limit {
      var c := Last(page);
      forall k | k in page ensures k == c || Before(k, c) {
        var i :| 0 <= i < |page| && page[i] == k;
      }
      forall i | 0 <= i < r.limit ensures all[i] in page {
        assert page[i] == all[i];
      }
      forall k | k in all && k !in page ensures Before(c, k) {
        var i :| 0 <= i < |all| && all[i] == k;
      }
      assert all[r.limit - 1] == c;
    }
  }

  /** Reported keys come in strictly increasing order, so none comes twice, and all carry the prefix. */
  lemma {:induction false} ReportedAscends(rounds: seq<Round>, prefix: string, cursor: Option<string>)
    requires Sound(rounds)
    ensures Ascending(Reported(rounds, prefix, cursor))
    ensures forall k :: k in Reported(rounds, prefix, cursor) ==> StartsWith(k, prefix) && Past(cursor, k)
    ensures forall k :: k in Reported(rounds, prefix, cursor) ==>
              exists i :: 0 <= i < |rounds| && k in rounds[i].found && k in rounds[i].alive
  {
    hide Before, SortedOf, PageOf;
    if rounds != [] {
      PageSplits(rounds[0], prefix, cursor);
      var p := PageOf(rounds[0], prefix, cursor);
      if p.next.Some? {
        var rest := Reported(rounds[1..], prefix, p.next);
        ReportedAscends(rounds[1..], prefix, p.next);
        AscendingJoin(p.keys, rest, p.next.value);
        forall k | k in rest ensures Past(cursor, k) {
          if cursor.Some? && cursor.value != "" {
            BeforeChains(cursor.value, p.next.value, k);
          }
        }
      }
    }
  }

  lemma AscendingJoin(a: seq<string>, b: seq<string>, c: string)
    requires Ascending(a) && Ascending(b)
    requires forall k :: k in a ==> k == c || Before(k, c)
    requires forall k :: k in b ==> Before(c, k)
    ensures Ascending(a + b)
  {
    hide Before;
    forall i, j | 0 <= i < |a| && 0 <= j < |b| ensures Before(a[i], b[j]) {
      assert a[i] in a && b[j] in b;
      if a[i] != c {
        BeforeChains(a[i], c, b[j]);
      }
    }
  }

  /** A key that every page found and every page's `head` answered for. */
  ghost predicate Steady(rounds: seq<Round>, k: string)
  {
    forall i :: 0 <= i < |rounds| ==> k in rounds[i].found && k in rounds[i].alive
  }

  /** Every matching key that was there throughout is reported, whatever else came and went. */
  lemma {:induction false} SteadyKeysAreReported(rounds: seq<Round>, prefix: string, cursor: Option<string>, k: string)
    requires Sound(rounds) && Complete(rounds, prefix, cursor)
    requires Steady(rounds, k) && StartsWith(k, prefix) && Past(cursor, k)
    ensures k in Reported(rounds, prefix, cursor)
  {
    hide Before, SortedOf, PageOf;
    PageSplits(rounds[0], prefix, cursor);
    var p := PageOf(rounds[0], prefix, cursor);
    assert k in Candidates(rounds[0].found, prefix, cursor);
    if k !in p.keys {
      SteadyKeysAreReported(rounds[1..], prefix, p.next, k);
    }
  }

  ghost predicate Once(s: seq<string>, k: string)
  {
    exists i :: 0 <= i < |s| && s[i] == k && forall j :: 0 <= j < |s| && s[j] == k ==> j == i
  }

  lemma AscendingOnce(s: seq<string>, k: string)
    requires Ascending(s) && k in s
    ensures Once(s, k)
  {
    hide Before;
    var i :| 0 <= i < |s| && s[i] == k;
    NotBeforeItself(k);
    assert forall j :: 0 <= j < |s| && s[j] == k ==> j == i;
  }

  // ---- What the pages saw of the trees they ran over -----------------------

  /**
   * `present[i]` are the keys of the bucket in the i-th tree that was current while the page ran. The walk visits each
   * directory, and `head` each key, at some moment of that time.
   */
  ghost predicate Observed(present: seq<set<string>>, r: Round)
  {
    && (forall k :: k in r.found || k in r.alive ==> exists i :: 0 <= i < |present| && k in present[i])
    && (forall k :: (forall i :: 0 <= i < |present| ==> k in present[i]) && |present| > 0 ==>
          k in r.found && k in r.alive)
  }

  ghost predicate AtSomeMoment(histories: seq<seq<set<string>>>, k: string)
  {
    exists i, j :: 0 <= i < |histories| && 0 <= j < |histories[i]| && k in histories[i][j]
  }

  ghost predicate Throughout(histories: seq<seq<set<string>>>, k: string)
  {
    forall i, j :: 0 <= i < |histories| && 0 <= j < |histories[i]| ==> k in histories[i][j]
  }

  ghost predicate AllObserved(histories: seq<seq<set<string>>>, rounds: seq<Round>)
  {
    |histories| == |rounds| && forall i :: 0 <= i < |rounds| ==> |histories[i]| > 0 && Observed(histories[i], rounds[i])
  }

  /**
   * A complete walk while the store changes arbitrarily between and during pages: strictly increasing keys with the
   * prefix, each of which the bucket held at some moment, and every matching key the bucket held all the time.
   */
  lemma WalkOverChangingStore(histories: seq<seq<set<string>>>, rounds: seq<Round>, prefix: string, k: string)
    requires AllObserved(histories, rounds) && Sound(rounds) && Complete(rounds, prefix, None)
    ensures var reported := Reported(rounds, prefix, None);
            && Ascending(reported)
            && (k in reported ==> StartsWith(k, prefix) && AtSomeMoment(histories, k))
            && (StartsWith(k, prefix) && Throughout(histories, k) ==> Once(reported, k))
  {
    hide Before, SortedOf, PageOf, Reported, Complete, Once;
    ReportedAscends(rounds, prefix, None);
    if StartsWith(k, prefix) && Throughout(histories, k) {
      forall i | 0 <= i < |rounds| ensures k in rounds[i].found && k in rounds[i].alive {
        assert Observed(histories[i], rounds[i]);
      }
      SteadyKeysAreReported(rounds, prefix, None, k);
      AscendingOnce(Reported(rounds, prefix, None), k);
    }
    if k in Reported(rounds, prefix, None) {
      var i :| 0 <= i < |rounds| && k in rounds[i].found && k in rounds[i].alive;
      assert Observed(histories[i], rounds[i]);
      var j :| 0 <= j < |histories[i]| && k in histories[i][j];
    }
  }

  // ---- A quiet store -------------------------------------------------------

  ghost predicate QuietRounds(rounds: seq<Round>, found: set<string>)
  {
    forall i :: 0 <= i < |rounds| ==> rounds[i].found == found && found <= rounds[i].alive
  }

  /** Over a quiet store the pages together are the sorted list of exactly the matching keys, whatever the limits. */
  lemma QuietWalkReportsEverything(rounds: seq<Round>, found: set<string>, prefix: string, cursor: Option<string>)
    requires Sound(rounds) && Complete(rounds, prefix, cursor) && QuietRounds(rounds, found)
    ensures Reported(rounds, prefix, cursor) == Candidates(found, prefix, cursor)
  {
    hide Before, SortedOf, PageOf, Reported, Complete;
    ReportedAscends(rounds, prefix, cursor);
    forall k | k in Candidates(found, prefix, cursor) ensures k in Reported(rounds, prefix, cursor) {
      SteadyKeysAreReported(rounds, prefix, cursor, k);
    }
    AscendingUnique(Reported(rounds, prefix, cursor), Candidates(found, prefix, cursor));
  }

  /** Each page but the last leaves exactly the candidates behind its limit: their number is the measure of the walk. */
  lemma NextPageStartsBehind(r: Round, prefix: string, cursor: Option<string>)
    requires r.limit >= 1 && "" !in r.found && PageOf(r, prefix, cursor).next.Some?
    ensures var all := Candidates(r.found, prefix, cursor);
            && r.limit < |all|
            && Candidates(r.found, prefix, PageOf(r, prefix, cursor).next) == all[r.limit..]
  {
    hide Before, SortedOf;
    PageSplits(r, prefix, cursor);
    var all := Candidates(r.found, prefix, cursor);
    var c := PageOf(r, prefix, cursor).next.value;
    var rest := Candidates(r.found, prefix, Some(c));
    forall k | k in all[r.limit..] ensures k in rest {
      var j :| 0 <= j < |all[r.limit..]| && all[r.limit..][j] == k;
      assert all[r.limit + j] == k && k in all;
      assert Before(c, k);
    }
    forall k | k in rest ensures k in all[r.limit..] {
      if cursor.Some? && cursor.value != "" {
        BeforeChains(cursor.value, c, k);
      }
      assert k in all;
      var i :| 0 <= i < |all| && all[i] == k;
      AboveIsBehind(all, i, r.limit - 1);
      assert all[r.limit..][i - r.limit] == k;
    }
    AscendingUnique(all[r.limit..], rest);
  }

  lemma AboveIsBehind(s: seq<string>, i: nat, j: nat)
    requires Ascending(s) && i < |s| && j < |s| && Before(s[j], s[i])
    ensures j < i
  {
    hide Before;
    NotBeforeItself(s[i]);
    if i < j {
      BeforeChains(s[i], s[j], s[i]);
    }
  }

  function PagesNeeded(keys: nat, limit: nat): nat
    requires limit >= 1
  {
    if keys <= limit then 1 else 1 + PagesNeeded(keys - limit, limit)
  }

  /** The walk ends, after as many pages as the keys fill. */
  lemma {:induction false} QuietWalkEnds(r: Round, prefix: string, cursor: Option<string>)
    requires r.limit >= 1 && "" !in r.found && r.found <= r.alive
    ensures Complete(seq(PagesNeeded(|Candidates(r.found, prefix, cursor)|, r.limit), i => r), prefix, cursor)
    decreases |Candidates(r.found, prefix, cursor)|
  {
    hide Before, SortedOf, Candidates;
    var n := PagesNeeded(|Candidates(r.found, prefix, cursor)|, r.limit);
    var rounds := seq(n, i => r);
    var p := PageOf(r, prefix, cursor);
    if p.next.Some? {
      NextPageStartsBehind(r, prefix, cursor);
      QuietWalkEnds(r, prefix, p.next);
      assert rounds[1..] == seq(n - 1, i => r);
    } else {
      assert |Candidates(r.found, prefix, cursor)| <= r.limit;
    }
  }

  /** With a limit of zero the first page is empty and final: only a bucket without matches is listed fully. */
  lemma ZeroLimit(r: Round, prefix: string, cursor: Option<string>)
    requires r.limit == 0
    ensures Complete([r], prefix, cursor) && Reported([r], prefix, cursor) == []
  {
    hide SortedOf;
    assert Cut(Candidates(r.found, prefix, cursor), 0) == [];
  }
}
