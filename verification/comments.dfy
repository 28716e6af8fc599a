/**
 * What the crawlers do to comments between the page and the database:
 * blank names and contents get defaults, quotes are doubled for SQL, long
 * texts are cut, duplicates are skipped or end the crawl, and the database
 * layer skips contents it already stores. Comment times are reduced to an
 * abstract timestamp `stamp`; "too old" means `stamp < limit`.
 */
module Comments {
  import opened Base
  import opened Text

  const NotAvailable: string := "N/A"
  /** "Người dùng ẩn danh", anonymous user. */
  const AnonymousUser: string := "Ng\U{01B0}\U{1EDD}i d\U{00F9}ng \U{1EA9}n danh"
  /** "Ẩn danh", the database layer's default user name. */
  const Anonymous: string := "\U{1EA8}n danh"

  const ContentLimit: nat := 2000
  const NameLimit: nat := 100

  datatype Comment = Comment(name: string, content: string)

  /** A comment as read from the page, with its parsed time. */
  datatype RawComment = RawComment(name: string, content: string, stamp: int)

  /** `time_limit and comment_time < time_limit` */
  predicate TooOld(c: RawComment, limit: Option<int>) {
    limit.Some? && c.stamp < limit.value
  }

  // ---------------------------------------------------------------------------
  // Defaults, quoting, truncation

  /** `x if x and x.strip() != "" else default` */
  function OrDefault(s: string, default: string): (r: string)
    ensures IsBlank(s) ==> r == default
    ensures !IsBlank(s) ==> r == s
    ensures !IsBlank(default) ==> !IsBlank(r)
  {
    StripEmptyIffBlank(s);
    if s == "" || Strip(s) == "" then default else s
  }

  /** `s.replace(c, c + c)` */
  function DoubleChar(s: string, c: char): (r: string)
    ensures |r| == |s| + Count(s, c)
    decreases |s|
  {
    if |s| == 0 then "" else (if s[0] == c then [c, c] else [s[0]]) + DoubleChar(s[1..], c)
  }

  /** The inverse of `DoubleChar`: each doubled `c` is read back as one. */
  function Undouble(s: string, c: char): (r: string)
    decreases |s|
  {
    if |s| >= 2 && s[0] == c && s[1] == c then [c] + Undouble(s[2..], c)
    else if |s| > 0 then [s[0]] + Undouble(s[1..], c)
    else ""
  }

  /** `s.replace("'", "''").replace('"', '""')` */
  function Escape(s: string): (r: string)
    ensures |r| == |s| + Count(s, '\'') + Count(s, '"')
  {
    var e := DoubleChar(s, '\'');
    DoubleCount(s, '\'', '"');
    DoubleChar(e, '"')
  }

  /** The SQL reading of an escaped text. */
  function Unescape(s: string): string {
    Undouble(Undouble(s, '"'), '\'')
  }

  /** `s[:limit - 3] + "..." if len(s) > limit else s` */
  function Truncate(s: string, limit: nat): (r: string)
    requires limit >= 3
    ensures |r| <= limit
    ensures |s| <= limit ==> r == s
    ensures |s| > limit ==> |r| == limit && r[..limit - 3] == s[..limit - 3] && r[limit - 3..] == "..."
  {
    if |s| > limit then s[..limit - 3] + "..." else s
  }

  /** One field of the clean-up: default, then quote doubling, then the length limit. */
  function CleanField(s: string, default: string, limit: nat): (r: string)
    requires limit >= 3
    ensures |r| <= limit
  {
    Truncate(Escape(OrDefault(s, default)), limit)
  }

  /** The Truyentranh3q and Manhuavn clean-up of one comment. */
  function Sanitize(name: string, content: string): (c: Comment) {
    Comment(CleanField(name, AnonymousUser, NameLimit), CleanField(content, NotAvailable, ContentLimit))
  }

  lemma {:induction false} DoubleCount(s: string, c: char, d: char)
    requires c != d
    ensures Count(DoubleChar(s, c), d) == Count(s, d)
    decreases |s|
  {
    if |s| > 0 {
      DoubleCount(s[1..], c, d);
      var head := if s[0] == c then [c, c] else [s[0]];
      CountAppend(head, DoubleChar(s[1..], c), d);
      assert Count(head, d) == (if s[0] == d then 1 else 0) by {
        if s[0] == c {
          assert head[1..] == [c];
          assert [c][1..] == "";
        } else {
          assert head[1..] == "";
        }
      }
    }
  }

  /** Undoubling a doubled text gives it back. */
  lemma {:induction false} UndoubleDouble(s: string, c: char)
    ensures Undouble(DoubleChar(s, c), c) == s
    decreases |s|
  {
    if |s| > 0 {
      UndoubleDouble(s[1..], c);
      var rest := DoubleChar(s[1..], c);
      if s[0] == c {
        assert DoubleChar(s, c)[2..] == rest;
      } else {
        assert DoubleChar(s, c)[1..] == rest;
      }
      assert s == [s[0]] + s[1..];
    }
  }

  /** The database reads back exactly the text the page showed. */
  lemma UnescapeEscape(s: string)
    ensures Unescape(Escape(s)) == s
  {
    UndoubleDouble(DoubleChar(s, '\''), '"');
    UndoubleDouble(s, '\'');
  }

  /** A field with a non-blank default is never cleaned to the empty text. */
  lemma CleanFieldNonEmpty(s: string, default: string, limit: nat)
    requires limit >= 3 && !IsBlank(default)
    ensures CleanField(s, default, limit) != ""
  {
    var d := OrDefault(s, default);
    assert d != "";
  }

  /** A blank field with a short quote-free default is stored as the default itself. */
  lemma CleanFieldBlank(s: string, default: string, limit: nat)
    requires limit >= 3 && IsBlank(s) && '\'' !in default && '"' !in default && |default| <= limit
    ensures CleanField(s, default, limit) == default
  {
    QuoteFree(default);
  }

  /** Every stored name and content is non-empty and within the column limits. */
  lemma SanitizeBounds(name: string, content: string)
    ensures var c := Sanitize(name, content);
      0 < |c.name| <= NameLimit && 0 < |c.content| <= ContentLimit
  {
    assert !IsSpace(AnonymousUser[0]) && !IsSpace(NotAvailable[0]);
    CleanFieldNonEmpty(name, AnonymousUser, NameLimit);
    CleanFieldNonEmpty(content, NotAvailable, ContentLimit);
  }

  /** A blank comment from a blank user is stored as "N/A" from the anonymous user. */
  lemma SanitizeBlank(name: string, content: string)
    requires IsBlank(name) && IsBlank(content)
    ensures Sanitize(name, content) == Comment(AnonymousUser, NotAvailable)
  {
    DefaultsQuoteFree();
    CleanFieldBlank(name, AnonymousUser, NameLimit);
    CleanFieldBlank(content, NotAvailable, ContentLimit);
  }

  lemma DefaultsQuoteFree()
    ensures '\'' !in AnonymousUser && '"' !in AnonymousUser && |AnonymousUser| <= NameLimit
    ensures '\'' !in NotAvailable && '"' !in NotAvailable && |NotAvailable| <= ContentLimit
  {
  }

  /** Text without quotes is left alone by the escaping. */
  lemma QuoteFree(s: string)
    requires '\'' !in s && '"' !in s
    ensures Escape(s) == s
  {
    DoubleAbsent(s, '\'');
    DoubleAbsent(s, '"');
  }

  lemma {:induction false} DoubleAbsent(s: string, c: char)
    requires c !in s
    ensures DoubleChar(s, c) == s
    decreases |s|
  {
    if |s| > 0 {
      assert c !in s[1..] by { assert forall i | 0 <= i < |s| - 1 :: s[1..][i] == s[i + 1]; }
      DoubleAbsent(s[1..], c);
      assert s == [s[0]] + s[1..];
    }
  }

  // ---------------------------------------------------------------------------
  // De-duplication by (name, content): Truyentranh3q and TruyenQQ crawlers

  predicate NoDuplicates<T(==)>(xs: seq<T>) {
    forall i, j | 0 <= i < j < |xs| :: xs[i] != xs[j]
  }

  /**
   * Appending each comment of `batch` to `collected` unless it is already there, as a
   * reference definition that takes the batch from its last element.
   */
  function Appended(collected: seq<Comment>, batch: seq<Comment>): (all: seq<Comment>)
    requires NoDuplicates(collected)
    ensures NoDuplicates(all)
    ensures |collected| <= |all| <= |collected| + |batch| && all[..|collected|] == collected
    ensures forall c | c in batch :: c in all
    ensures forall c | c in all :: c in collected || c in batch
    decreases |batch|
  {
    if |batch| == 0 then collected
    else
      var front := batch[..|batch| - 1];
      var prev := Appended(collected, front);
      var c := batch[|batch| - 1];
      assert batch == front + [c];
      assert (prev + [c])[..|collected|] == prev[..|collected|];
      if c in prev then prev else prev + [c]
  }

  /** The append-unless-present loop of the crawlers, over a batch of cleaned comments. */
  method AppendUnique(collected: seq<Comment>, batch: seq<Comment>) returns (all: seq<Comment>, added: nat)
    requires NoDuplicates(collected)
    ensures all == Appended(collected, batch)
    ensures |all| == |collected| + added
  {
    all := collected;
    added := 0;
    var i := 0;
    while i < |batch|
      invariant 0 <= i <= |batch|
      invariant all == Appended(collected, batch[..i])
      invariant |all| == |collected| + added
    {
      var c := batch[i];
      assert batch[..i + 1][..i] == batch[..i];
      if c !in all {
        all := all + [c];
        added := added + 1;
      }
      i := i + 1;
    }
    assert batch[..i] == batch;
  }

  /** One comment of a page, cleaned as the Truyentranh3q and Manhuavn crawlers clean it. */
  function Cleaned(c: RawComment): Comment {
    Sanitize(c.name, c.content)
  }

  /** The comments of a page that are not too old, each cleaned by `clean`. */
  function Recent(raw: seq<RawComment>, limit: Option<int>, clean: RawComment -> Comment): (r: seq<Comment>)
    ensures |r| <= |raw|
    decreases |raw|
  {
    if |raw| == 0 then []
    else
      var rest := Recent(raw[1..], limit, clean);
      if TooOld(raw[0], limit) then rest else [clean(raw[0])] + rest
  }

  /** `c` is the `clean` form of a comment of the page that is not too old. */
  predicate Drawn(c: Comment, raw: seq<RawComment>, limit: Option<int>, clean: RawComment -> Comment) {
    exists k | 0 <= k < |raw| :: !TooOld(raw[k], limit) && c == clean(raw[k])
  }

  /** Every comment that is not too old is kept, cleaned, and nothing else is. */
  lemma RecentExactly(raw: seq<RawComment>, limit: Option<int>, clean: RawComment -> Comment)
    ensures forall k | 0 <= k < |raw| && !TooOld(raw[k], limit) :: clean(raw[k]) in Recent(raw, limit, clean)
    ensures forall c | c in Recent(raw, limit, clean) :: Drawn(c, raw, limit, clean)
  {
    RecentKeeps(raw, limit, clean);
    RecentOnlyDrawn(raw, limit, clean);
  }

  lemma RecentKeeps(raw: seq<RawComment>, limit: Option<int>, clean: RawComment -> Comment)
    ensures forall k | 0 <= k < |raw| && !TooOld(raw[k], limit) :: clean(raw[k]) in Recent(raw, limit, clean)
  {
    forall k | 0 <= k < |raw| && !TooOld(raw[k], limit)
      ensures clean(raw[k]) in Recent(raw, limit, clean)
    {
      KeptAt(raw, limit, clean, k);
    }
  }

  /** The comment at position `k`, if not too old, is among the page's recent comments. */
  lemma {:induction false} KeptAt(raw: seq<RawComment>, limit: Option<int>, clean: RawComment -> Comment, k: nat)
    requires k < |raw| && !TooOld(raw[k], limit)
    ensures clean(raw[k]) in Recent(raw, limit, clean)
    decreases k
  {
    if k > 0 {
      var tail := raw[1..];
      assert tail[k - 1] == raw[k];
      KeptAt(tail, limit, clean, k - 1);
      RecentGrows(raw, limit, clean, clean(raw[k]));
    } else {
      assert Recent(raw, limit, clean)[0] == clean(raw[0]);
    }
  }

  lemma {:induction false} RecentOnlyDrawn(raw: seq<RawComment>, limit: Option<int>, clean: RawComment -> Comment)
    ensures forall c | c in Recent(raw, limit, clean) :: Drawn(c, raw, limit, clean)
    decreases |raw|
  {
    if |raw| > 0 {
      RecentOnlyDrawn(raw[1..], limit, clean);
      RecentStep(raw, limit, clean);
      forall c | c in Recent(raw, limit, clean)
        ensures Drawn(c, raw, limit, clean)
      {
        if c in Recent(raw[1..], limit, clean) {
          DrawnFromTail(c, raw, limit, clean);
        } else {
          assert !TooOld(raw[0], limit) && c == clean(raw[0]);
        }
      }
    }
  }

  /** One step of the page loop: the first comment is kept unless too old, and the rest as before. */
  lemma RecentStep(raw: seq<RawComment>, limit: Option<int>, clean: RawComment -> Comment)
    requires |raw| > 0
    ensures forall c | c in Recent(raw[1..], limit, clean) :: c in Recent(raw, limit, clean)
    ensures !TooOld(raw[0], limit) ==> clean(raw[0]) in Recent(raw, limit, clean)
    ensures forall c | c in Recent(raw, limit, clean) ::
      c in Recent(raw[1..], limit, clean) || (!TooOld(raw[0], limit) && c == clean(raw[0]))
  {
  }

  lemma RecentGrows(raw: seq<RawComment>, limit: Option<int>, clean: RawComment -> Comment, c: Comment)
    requires |raw| > 0 && c in Recent(raw[1..], limit, clean)
    ensures c in Recent(raw, limit, clean)
  {
  }

  lemma DrawnFromTail(c: Comment, raw: seq<RawComment>, limit: Option<int>, clean: RawComment -> Comment)
    requires |raw| > 0 && Drawn(c, raw[1..], limit, clean)
    ensures Drawn(c, raw, limit, clean)
  {
    var k :| 0 <= k < |raw| - 1 && !TooOld(raw[1..][k], limit) && c == clean(raw[1..][k]);
    assert raw[1..][k] == raw[k + 1];
  }

  /** The Truyentranh3q page loop: too-old comments are skipped, the rest cleaned and appended unless already present. */
  function Truyentranh3qPage(collected: seq<Comment>, raw: seq<RawComment>, limit: Option<int>): (all: seq<Comment>)
    requires NoDuplicates(collected)
  {
    Appended(collected, Recent(raw, limit, Cleaned))
  }

  /** Every recent comment of the page ends up collected exactly once, and nothing else is added. */
  lemma Truyentranh3qPageCollects(collected: seq<Comment>, raw: seq<RawComment>, limit: Option<int>)
    requires NoDuplicates(collected)
    ensures var all := Truyentranh3qPage(collected, raw, limit);
      NoDuplicates(all) && |all| >= |collected| && all[..|collected|] == collected &&
      (forall k | 0 <= k < |raw| && !TooOld(raw[k], limit) :: Cleaned(raw[k]) in all) &&
      (forall c | c in all && c !in collected ::
         exists k | 0 <= k < |raw| :: !TooOld(raw[k], limit) && c == Cleaned(raw[k]))
  {
    var rec := Recent(raw, limit, Cleaned);
    RecentExactly(raw, limit, Cleaned);
    var all := Appended(collected, rec);
    forall c | c in all && c !in collected
      ensures exists k | 0 <= k < |raw| :: !TooOld(raw[k], limit) && c == Cleaned(raw[k])
    {
      assert c in rec;
    }
  }

  /** The TruyenQQ crawler defaults both blank name and blank content to "N/A". */
  function TruyenQQClean(name: string, content: string): (c: Comment)
    ensures c.name == OrDefault(name, NotAvailable) && c.content == OrDefault(content, NotAvailable)
    ensures c.name != "" && c.content != ""
  {
    StripEmptyIffBlank(name);
    StripEmptyIffBlank(content);
    assert !IsBlank(NotAvailable) by { assert NotAvailable[0] == 'N'; }
    Comment(OrDefault(name, NotAvailable), OrDefault(content, NotAvailable))
  }

  /** The TruyenQQ page loop: clean, then append each pair not yet collected. */
  method TruyenQQPage(collected: seq<Comment>, names: seq<string>, contents: seq<string>) returns (all: seq<Comment>)
    requires |names| == |contents| && NoDuplicates(collected)
    ensures NoDuplicates(all) && |all| >= |collected| && all[..|collected|] == collected
    ensures forall k | 0 <= k < |names| :: TruyenQQClean(names[k], contents[k]) in all
    ensures forall c | c in all :: c in collected || exists k | 0 <= k < |names| :: c == TruyenQQClean(names[k], contents[k])
  {
    var batch := seq(|names|, k requires 0 <= k < |names| => TruyenQQClean(names[k], contents[k]));
    var added;
    all, added := AppendUnique(collected, batch);
    forall k | 0 <= k < |names| ensures TruyenQQClean(names[k], contents[k]) in all {
      assert batch[k] == TruyenQQClean(names[k], contents[k]);
      assert batch[k] in batch;
    }
    forall c | c in all && c !in collected
      ensures exists k | 0 <= k < |names| :: c == TruyenQQClean(names[k], contents[k])
    {
      var k :| 0 <= k < |batch| && batch[k] == c;
    }
  }

  // ---------------------------------------------------------------------------
  // Stop rules: NetTruyen crawler and script

  /** The NetTruyen crawler's loop: stop at the first too-old comment or the first repeated content other than "N/A". */
  function StopScan(raw: seq<RawComment>, limit: Option<int>, seen: set<string>): (r: seq<Comment>)
    ensures |r| <= |raw|
    ensures forall k | 0 <= k < |r| :: r[k] == Comment(raw[k].name, raw[k].content) && !TooOld(raw[k], limit)
    ensures forall k | 0 <= k < |r| :: r[k].content == NotAvailable || r[k].content !in seen
    ensures forall i, j | 0 <= i < j < |r| :: r[i].content == NotAvailable || r[i].content != r[j].content
    decreases |raw|
  {
    if |raw| == 0 then []
    else
      var c := raw[0];
      if TooOld(c, limit) || (c.content != NotAvailable && c.content in seen) then []
      else
        var seen' := if c.content != NotAvailable then seen + {c.content} else seen;
        var rest := StopScan(raw[1..], limit, seen');
        assert forall k | 0 <= k < |rest| :: rest[k].content == NotAvailable || rest[k].content != c.content;
        [Comment(c.name, c.content)] + rest
  }

  /** The scan stops only where the source breaks: at a too-old comment or a repeated content. */
  lemma {:induction false} StopScanStopsAtCause(raw: seq<RawComment>, limit: Option<int>, seen: set<string>)
    ensures var r := StopScan(raw, limit, seen);
      |r| < |raw| ==>
        TooOld(raw[|r|], limit) ||
        (raw[|r|].content != NotAvailable &&
         (raw[|r|].content in seen || exists k | 0 <= k < |r| :: r[k].content == raw[|r|].content))
    decreases |raw|
  {
    if |raw| > 0 {
      var c := raw[0];
      if !(TooOld(c, limit) || (c.content != NotAvailable && c.content in seen)) {
        var seen' := if c.content != NotAvailable then seen + {c.content} else seen;
        StopScanStopsAtCause(raw[1..], limit, seen');
        var r := StopScan(raw, limit, seen);
        var rest := StopScan(raw[1..], limit, seen');
        assert r == [Comment(c.name, c.content)] + rest;
        if |r| < |raw| {
          assert raw[|r|] == raw[1..][|rest|];
          if !TooOld(raw[|r|], limit) && raw[|r|].content != NotAvailable && raw[|r|].content !in seen {
            if raw[|r|].content == c.content {
              assert r[0].content == raw[|r|].content;
            } else {
              var k :| 0 <= k < |rest| && rest[k].content == raw[|r|].content;
              assert r[k + 1] == rest[k];
            }
          }
        }
      }
    }
  }

  /** "N/A" is never a duplicate: recent comments without content are all kept. */
  lemma {:induction false} NotAvailableNeverStops(raw: seq<RawComment>, limit: Option<int>, seen: set<string>)
    requires forall k | 0 <= k < |raw| :: raw[k].content == NotAvailable && !TooOld(raw[k], limit)
    ensures |StopScan(raw, limit, seen)| == |raw|
    decreases |raw|
  {
    if |raw| > 0 {
      assert forall k | 0 <= k < |raw| - 1 :: raw[1..][k] == raw[k + 1];
      NotAvailableNeverStops(raw[1..], limit, seen);
    }
  }

  /** One page of the NetTruyen script: the comments read before a repeat, and whether a repeat was found. */
  function ScriptPage(page: seq<Comment>, seen: set<string>): (r: (seq<Comment>, bool, set<string>))
    ensures |r.0| <= |page| && r.0 == page[..|r.0|]
    ensures !r.1 ==> |r.0| == |page|
    ensures r.1 ==> |r.0| < |page| && page[|r.0|].content != NotAvailable && page[|r.0|].content in r.2
    ensures seen <= r.2
    ensures forall k | 0 <= k < |r.0| :: r.0[k].content == NotAvailable || r.0[k].content in r.2
    decreases |page|
  {
    if |page| == 0 then ([], false, seen)
    else
      var c := page[0];
      if c.content != NotAvailable && c.content in seen then ([], true, seen)
      else
        var seen' := if c.content != NotAvailable then seen + {c.content} else seen;
        var rest := ScriptPage(page[1..], seen');
        ([c] + rest.0, rest.1, rest.2)
  }

  /**
   * `get_comments` of the NetTruyen script over the pages it loads: a repeated content
   * ends the crawl, and so does a page that yields fewer than 10 comments.
   */
  function ScriptCrawl(pages: seq<seq<Comment>>, seen: set<string>): (r: seq<Comment>)
    decreases |pages|
  {
    if |pages| == 0 || |pages[0]| == 0 then []
    else
      var (got, dup, seen') := ScriptPage(pages[0], seen);
      if dup || |got| < 10 then got else got + ScriptCrawl(pages[1..], seen')
  }

  /** A short page is the last one read: the pages after it never contribute. */
  lemma ShortPageIsLast(pages: seq<seq<Comment>>, seen: set<string>)
    requires |pages| > 0 && 0 < |pages[0]| < 10
    ensures ScriptCrawl(pages, seen) == ScriptPage(pages[0], seen).0
  {
  }

  /** A repeated content ends the crawl and is not itself collected. */
  lemma RepeatEndsCrawl(pages: seq<seq<Comment>>, seen: set<string>)
    requires |pages| > 0 && |pages[0]| > 0 && ScriptPage(pages[0], seen).1
    ensures var got := ScriptPage(pages[0], seen).0;
      ScriptCrawl(pages, seen) == got && |got| < |pages[0]| && pages[0][..|got|] == got
  {
  }

  /** The script never collects more comments than it loads. */
  lemma {:induction false} ScriptCrawlBound(pages: seq<seq<Comment>>, seen: set<string>)
    ensures |ScriptCrawl(pages, seen)| <= Total(pages)
    decreases |pages|
  {
    if |pages| > 0 && |pages[0]| > 0 {
      var (got, dup, seen') := ScriptPage(pages[0], seen);
      if !(dup || |got| < 10) {
        ScriptCrawlBound(pages[1..], seen');
      }
    }
  }

  function Total(pages: seq<seq<Comment>>): nat
    decreases |pages|
  {
    if |pages| == 0 then 0 else |pages[0]| + Total(pages[1..])
  }

  // ---------------------------------------------------------------------------
  // TruyenQQto script: every comment kept

  /** `get_comments` of the TruyenQQto script: both fields default to "N/A", nothing is dropped. */
  function ScriptQQto(raw: seq<Comment>): (r: seq<Comment>)
    ensures |r| == |raw|
    ensures forall k | 0 <= k < |r| :: r[k] == TruyenQQClean(raw[k].name, raw[k].content)
  {
    seq(|raw|, k requires 0 <= k < |raw| => TruyenQQClean(raw[k].name, raw[k].content))
  }

  // ---------------------------------------------------------------------------
  // Story listings

  /** An entry of a listing page; a missing field is the empty string. */
  datatype Listing = Listing(title: string, link: string)

  predicate ValidListing(l: Listing) {
    l.title != "" && l.link != "" && StartsWith(l.link, "http")
  }

  /** The listing clean-up of the Truyentranh3q and Manhuavn crawlers: keep entries with a title and an http link. */
  function FilterListings(ls: seq<Listing>): (r: seq<Listing>)
    ensures |r| <= |ls|
    ensures forall k | 0 <= k < |r| :: ValidListing(r[k]) && r[k] in ls
    ensures forall k | 0 <= k < |ls| && ValidListing(ls[k]) :: ls[k] in r
    decreases |ls|
  {
    if |ls| == 0 then []
    else if ValidListing(ls[0]) then [ls[0]] + FilterListings(ls[1..])
    else FilterListings(ls[1..])
  }

  /** Filtering keeps the order of the valid entries and drops nothing else: filtering twice changes nothing. */
  lemma {:induction false} FilterListingsIdempotent(ls: seq<Listing>)
    ensures FilterListings(FilterListings(ls)) == FilterListings(ls)
    decreases |ls|
  {
    if |ls| > 0 {
      FilterListingsIdempotent(ls[1..]);
      if ValidListing(ls[0]) {
        assert ([ls[0]] + FilterListings(ls[1..]))[1..] == FilterListings(ls[1..]);
      }
    }
  }

  // ---------------------------------------------------------------------------
  // The database layer: add_comments

  /** A comment handed to `add_comments`; a missing content is "", a missing user name `None`. */
  datatype Incoming = Incoming(username: Option<string>, content: string)

  datatype Stored = Stored(username: string, content: string)

  /** The row stored for a comment: a missing user name becomes the anonymous one. */
  function AsStored(c: Incoming): (s: Stored)
    ensures s.content == c.content
    ensures c.username.Some? ==> s.username == c.username.value
    ensures c.username.None? ==> s.username == Anonymous
  {
    Stored(c.username.GetOr(Anonymous), c.content)
  }

  /** `s` is the row stored for the first entry of `batch` with its content. */
  predicate FromFirstEntry(batch: seq<Incoming>, s: Stored) {
    exists k | 0 <= k < |batch| ::
      s == AsStored(batch[k]) && forall k' | 0 <= k' < k :: batch[k'].content != batch[k].content
  }

  /**
   * `add_comments(story_id, comments_data)` against a story database that already holds
   * the contents `existing`; `fails` stands for a database error, after which nothing is stored.
   */
  method AddComments(existing: set<string>, batch: seq<Incoming>, fails: bool) returns (count: nat, inserted: seq<Stored>)
    ensures count == |inserted|
    ensures batch == [] || fails ==> count == 0
    ensures forall k | 0 <= k < |inserted| :: inserted[k].content != "" && inserted[k].content !in existing
    ensures forall i, j | 0 <= i < j < |inserted| :: inserted[i].content != inserted[j].content
    ensures !fails ==> forall k | 0 <= k < |batch| && batch[k].content != "" ::
      batch[k].content in existing || exists j | 0 <= j < |inserted| :: inserted[j].content == batch[k].content
    ensures forall j | 0 <= j < |inserted| :: FromFirstEntry(batch, inserted[j])
  {
    if batch == [] || fails {
      return 0, [];
    }
    var seen := existing;
    inserted := [];
    var i := 0;
    while i < |batch|
      invariant 0 <= i <= |batch|
      invariant seen == existing + ContentSet(inserted)
      invariant forall k | 0 <= k < |inserted| :: inserted[k].content != "" && inserted[k].content !in existing
      invariant forall a, b | 0 <= a < b < |inserted| :: inserted[a].content != inserted[b].content
      invariant forall k | 0 <= k < i && batch[k].content != "" :: batch[k].content in seen
      invariant forall j | 0 <= j < |inserted| :: FromFirstEntry(batch, inserted[j])
    {
      var c := batch[i];
      if c.content != "" && c.content !in seen {
        var s := AsStored(c);
        assert forall k' | 0 <= k' < i :: batch[k'].content != batch[i].content;
        assert FromFirstEntry(batch, s);
        ContentSetSnoc(inserted, s);
        inserted := inserted + [s];
        seen := seen + {c.content};
        assert inserted[|inserted| - 1] == AsStored(batch[i]);
      }
      i := i + 1;
    }
    count := |inserted|;
    forall k | 0 <= k < |batch| && batch[k].content != "" && batch[k].content !in existing
      ensures exists j | 0 <= j < |inserted| :: inserted[j].content == batch[k].content
    {
      assert batch[k].content in ContentSet(inserted);
      ContentSetMember(inserted, batch[k].content);
    }
  }

  function ContentSet(xs: seq<Stored>): set<string> {
    set s | s in xs :: s.content
  }

  lemma ContentSetMember(xs: seq<Stored>, c: string)
    requires c in ContentSet(xs)
    ensures exists j | 0 <= j < |xs| :: xs[j].content == c
  {
    var s :| s in xs && s.content == c;
    var j :| 0 <= j < |xs| && xs[j] == s;
  }

  lemma ContentSetSnoc(xs: seq<Stored>, x: Stored)
    ensures ContentSet(xs + [x]) == ContentSet(xs) + {x.content}
  {
    assert x in xs + [x];
    assert forall s | s in xs :: s in xs + [x];
  }
}
