/**
 * The offline reference lookups of plugins/education.js: the verse index built from the bundled
 * Bible, the `.bible` reference lookup with its regular expression, and the `.wiki` lookup in a
 * fixed three-entry dataset.
 *
 * The SHA-256 prefix shown under a verse and the random "entropy" number are parameters; a
 * rejected reply is a parameter giving the error message it is rejected with.
 */
module Education {
  import opened Text
  import opened Transport

  // ----- BIBLE_CACHE -----

  /** A book of the bundled Bible: its name and, per chapter, the verses in order. */
  datatype Book = Book(name: string, chapters: seq<seq<string>>)

  /** One write into the cache. */
  datatype Entry = Entry(key: string, verse: string)

  /** The key of verse `v` of chapter `c` (both counted from 0) of book `name`: 1-based and lower-cased. */
  function VerseKey(name: string, c: nat, v: nat): (k: string)
    ensures forall i :: 0 <= i < |k| ==> !IsUpper(k[i])
  {
    LowerIdempotent(name + " " + Decimal(c + 1) + ":" + Decimal(v + 1));
    Lower(name + " " + Decimal(c + 1) + ":" + Decimal(v + 1))
  }

  /** The writes for the verses of chapter `c`, in verse order. */
  function ChapterEntries(name: string, c: nat, verses: seq<string>): (es: seq<Entry>)
    ensures |es| == |verses|
    ensures forall v :: 0 <= v < |verses| ==> es[v] == Entry(VerseKey(name, c, v), verses[v])
  {
    seq(|verses|, v requires 0 <= v < |verses| => Entry(VerseKey(name, c, v), verses[v]))
  }

  /** The writes for the chapters of one book, chapter after chapter. */
  function BookEntries(name: string, chapters: seq<seq<string>>): seq<Entry>
    decreases |chapters|
  {
    if |chapters| == 0 then []
    else BookEntries(name, chapters[..|chapters| - 1]) + ChapterEntries(name, |chapters| - 1, chapters[|chapters| - 1])
  }

  /** The writes of the whole initialisation, book after book. */
  function BibleEntries(bible: seq<Book>): seq<Entry>
    decreases |bible|
  {
    if |bible| == 0 then []
    else BibleEntries(bible[..|bible| - 1]) + BookEntries(bible[|bible| - 1].name, bible[|bible| - 1].chapters)
  }

  /** The map the writes `es` leave behind, performed in order on an empty map. */
  function Insert(es: seq<Entry>): map<string, string>
    decreases |es|
  {
    if |es| == 0 then map[] else Insert(es[..|es| - 1])[es[|es| - 1].key := es[|es| - 1].verse]
  }

  /** `BIBLE_CACHE` after the initialisation. */
  function CacheOf(bible: seq<Book>): map<string, string> {
    Insert(BibleEntries(bible))
  }

  /** The cache holds exactly the keys written, and each value is one of the verses written under that key. */
  lemma {:induction false} InsertContents(es: seq<Entry>)
    ensures forall k :: k in Insert(es) <==> exists j :: 0 <= j < |es| && es[j].key == k
    ensures forall k :: k in Insert(es) ==> Entry(k, Insert(es)[k]) in es
    decreases |es|
  {
    if |es| > 0 {
      var init := es[..|es| - 1];
      InsertContents(init);
      assert forall j :: 0 <= j < |init| ==> es[j] == init[j];
      forall k | k in Insert(es)
        ensures Entry(k, Insert(es)[k]) in es
      {
        if k != es[|es| - 1].key {
          assert Entry(k, Insert(init)[k]) in init;
        }
      }
    }
  }

  /** A later write under the same key overwrites an earlier one: the last write under a key is what the cache holds. */
  lemma {:induction false} LastWriteWins(es: seq<Entry>, j: nat)
    requires j < |es|
    requires forall j' :: j < j' < |es| ==> es[j'].key != es[j].key
    ensures es[j].key in Insert(es) && Insert(es)[es[j].key] == es[j].verse
    decreases |es|
  {
    if j < |es| - 1 {
      var init := es[..|es| - 1];
      assert init[j] == es[j];
      LastWriteWins(init, j);
    }
  }

  lemma {:induction false} ChapterInBook(name: string, chapters: seq<seq<string>>, c: nat, v: nat)
    requires c < |chapters| && v < |chapters[c]|
    ensures Entry(VerseKey(name, c, v), chapters[c][v]) in BookEntries(name, chapters)
    decreases |chapters|
  {
    var n := |chapters| - 1;
    if c < n {
      assert chapters[..n][c] == chapters[c];
      ChapterInBook(name, chapters[..n], c, v);
    } else {
      assert ChapterEntries(name, n, chapters[n])[v] == Entry(VerseKey(name, c, v), chapters[c][v]);
    }
  }

  /** Every verse of every book is written under its key. */
  lemma {:induction false} VerseWritten(bible: seq<Book>, b: nat, c: nat, v: nat)
    requires b < |bible| && c < |bible[b].chapters| && v < |bible[b].chapters[c]|
    ensures Entry(VerseKey(bible[b].name, c, v), bible[b].chapters[c][v]) in BibleEntries(bible)
    decreases |bible|
  {
    var n := |bible| - 1;
    if b < n {
      assert bible[..n][b] == bible[b];
      VerseWritten(bible[..n], b, c, v);
    } else {
      ChapterInBook(bible[b].name, bible[b].chapters, c, v);
    }
  }

  /** Every verse's key is in the cache, and whatever the cache holds under a key was written under it. */
  lemma VerseIndexed(bible: seq<Book>, b: nat, c: nat, v: nat)
    requires b < |bible| && c < |bible[b].chapters| && v < |bible[b].chapters[c]|
    ensures VerseKey(bible[b].name, c, v) in CacheOf(bible)
    ensures Entry(VerseKey(bible[b].name, c, v), CacheOf(bible)[VerseKey(bible[b].name, c, v)]) in BibleEntries(bible)
  {
    VerseWritten(bible, b, c, v);
    InsertContents(BibleEntries(bible));
  }

  /** One more verse written at the end. */
  lemma ChapterSnoc(name: string, c: nat, verses: seq<string>, v: nat)
    requires v < |verses|
    ensures ChapterEntries(name, c, verses[..v + 1]) == ChapterEntries(name, c, verses[..v]) + [Entry(VerseKey(name, c, v), verses[v])]
  {
  }

  /** Writing one more entry updates the map at its key. */
  lemma InsertSnoc(done: seq<Entry>, e: Entry)
    ensures Insert(done + [e]) == Insert(done)[e.key := e.verse]
  {
    assert (done + [e])[..|done|] == done;
  }

  /** The innermost `forEach`: the verses of chapter `c` written in order after the writes `done`. */
  method WriteChapter(cache: map<string, string>, ghost done: seq<Entry>, name: string, c: nat, verses: seq<string>)
    returns (r: map<string, string>)
    requires cache == Insert(done)
    ensures r == Insert(done + ChapterEntries(name, c, verses))
  {
    r := cache;
    assert done + ChapterEntries(name, c, verses[..0]) == done;
    for v := 0 to |verses|
      invariant r == Insert(done + ChapterEntries(name, c, verses[..v]))
    {
      var e := Entry(VerseKey(name, c, v), verses[v]);
      ChapterSnoc(name, c, verses, v);
      InsertSnoc(done + ChapterEntries(name, c, verses[..v]), e);
      assert done + ChapterEntries(name, c, verses[..v + 1]) == (done + ChapterEntries(name, c, verses[..v])) + [e];
      r := r[e.key := e.verse];
    }
    assert verses[..|verses|] == verses;
  }

  /** The middle `forEach`: the chapters of one book, in order, after the writes `done`. */
  method WriteBook(cache: map<string, string>, ghost done: seq<Entry>, book: Book) returns (r: map<string, string>)
    requires cache == Insert(done)
    ensures r == Insert(done + BookEntries(book.name, book.chapters))
  {
    r := cache;
    assert book.chapters[..0] == [] && done + [] == done;
    for c := 0 to |book.chapters|
      invariant r == Insert(done + BookEntries(book.name, book.chapters[..c]))
    {
      ghost var before := done + BookEntries(book.name, book.chapters[..c]);
      r := WriteChapter(r, before, book.name, c, book.chapters[c]);
      assert book.chapters[..c + 1][..c] == book.chapters[..c];
      assert before + ChapterEntries(book.name, c, book.chapters[c])
             == done + BookEntries(book.name, book.chapters[..c + 1]);
    }
    assert book.chapters[..|book.chapters|] == book.chapters;
  }

  /** The initialisation as the source runs it: the books in order, into an empty map. */
  method BuildCache(bible: seq<Book>) returns (cache: map<string, string>)
    ensures cache == CacheOf(bible)
  {
    cache := map[];
    for b := 0 to |bible|
      invariant cache == Insert(BibleEntries(bible[..b]))
    {
      cache := WriteBook(cache, BibleEntries(bible[..b]), bible[b]);
      assert bible[..b + 1][..b] == bible[..b];
    }
    assert bible[..|bible|] == bible;
  }

  // ----- the reference pattern /(\d?\s?\w+)\s+(\d+):(\d+)/i -----

  /** The three capture groups of a reference. */
  datatype Reference = Reference(book: string, chapter: string, verse: string)

  /** The end of the longest run of characters satisfying `f` that starts at `p`. */
  function RunEnd(s: string, p: nat, f: char -> bool): (e: nat)
    requires p <= |s|
    ensures p <= e <= |s|
    ensures forall k :: p <= k < e ==> f(s[k])
    ensures e == |s| || !f(s[e])
    decreases |s| - p
  {
    if p < |s| && f(s[p]) then RunEnd(s, p + 1, f) else p
  }

  /**
   * `\w+\s+(\d+):(\d+)` from `p`, the first group starting at `i`. The classes are pairwise
   * disjoint, so each run is forced to be maximal by the token after it, and the last `\d+`
   * is greedy: no other backtracking choice exists.
   */
  function Tail(s: string, i: nat, p: nat): (r: Option<Reference>)
    requires i <= p <= |s|
  {
    var e := RunEnd(s, p, IsWordChar);
    var f := RunEnd(s, e, IsSpace);
    var g := RunEnd(s, f, IsDigit);
    if e == p || f == e || g == f || g == |s| || s[g] != ':' then None
    else
      var h := RunEnd(s, g + 1, IsDigit);
      if h == g + 1 then None else Some(Reference(s[i..e], s[f..g], s[g + 1..h]))
  }

  /** `\s?` from `p`: taking a white-space character is tried before skipping it. */
  function AfterDigit(s: string, i: nat, p: nat): Option<Reference>
    requires i <= p <= |s|
  {
    var taken := if p < |s| && IsSpace(s[p]) then Tail(s, i, p + 1) else None;
    if taken.Some? then taken else Tail(s, i, p)
  }

  /** The match starting at `i`: `\d?` taking a digit is tried before skipping it. */
  function MatchAt(s: string, i: nat): Option<Reference>
    requires i <= |s|
  {
    var taken := if i < |s| && IsDigit(s[i]) then AfterDigit(s, i, i + 1) else None;
    if taken.Some? then taken else AfterDigit(s, i, i)
  }

  /** The pattern matches at no position from `i` up to, but not including, `j`. */
  predicate NoMatchIn(s: string, i: nat, j: nat)
    requires i <= j <= |s| + 1
  {
    forall k :: i <= k < j ==> MatchAt(s, k).None?
  }

  /** `text.match(pattern)`: the match at the leftmost position from `i` on where there is one. */
  function MatchFrom(s: string, i: nat): (r: Option<Reference>)
    requires i <= |s|
    ensures r.None? ==> NoMatchIn(s, i, |s| + 1)
    ensures r.Some? ==> exists j :: i <= j <= |s| && MatchAt(s, j) == r && NoMatchIn(s, i, j)
    decreases |s| - i
  {
    if MatchAt(s, i).Some? then
      assert NoMatchIn(s, i, i);
      MatchAt(s, i)
    else if i == |s| then None
    else
      var r := MatchFrom(s, i + 1);
      assert r.None? ==> NoMatchIn(s, i, |s| + 1);
      assert r.Some? ==> exists j :: i <= j <= |s| && MatchAt(s, j) == r && NoMatchIn(s, i, j) by {
        if r.Some? {
          var j :| i + 1 <= j <= |s| && MatchAt(s, j) == r && NoMatchIn(s, i + 1, j);
          assert NoMatchIn(s, i, j);
        }
      }
      r
  }

  /** All characters of `s` are decimal digits, and there is at least one. */
  predicate Digits(s: string) {
    |s| > 0 && forall k :: 0 <= k < |s| ==> IsDigit(s[k])
  }

  /** The shape every reference has: a book ending in a word character, a digit chapter and a digit verse. */
  predicate Shaped(r: Reference) {
    |r.book| > 0 && IsWordChar(r.book[|r.book| - 1]) && Digits(r.chapter) && Digits(r.verse)
  }

  lemma TailShape(s: string, i: nat, p: nat)
    requires i <= p <= |s| && Tail(s, i, p).Some?
    ensures Shaped(Tail(s, i, p).value)
  {
    var e := RunEnd(s, p, IsWordChar);
    assert s[i..e][e - i - 1] == s[e - 1];
  }

  /** A reference found anywhere has that shape. */
  lemma MatchShape(s: string, i: nat)
    requires i <= |s| && MatchAt(s, i).Some?
    ensures Shaped(MatchAt(s, i).value)
  {
    if i < |s| && IsDigit(s[i]) && AfterDigit(s, i, i + 1).Some? {
      AfterDigitShape(s, i, i + 1);
    } else {
      AfterDigitShape(s, i, i);
    }
  }

  lemma AfterDigitShape(s: string, i: nat, p: nat)
    requires i <= p <= |s| && AfterDigit(s, i, p).Some?
    ensures Shaped(AfterDigit(s, i, p).value)
  {
    if p < |s| && IsSpace(s[p]) && Tail(s, i, p + 1).Some? {
      TailShape(s, i, p + 1);
    } else {
      TailShape(s, i, p);
    }
  }

  /** "john 3:16" is read as book, chapter and verse. */
  lemma ReferenceExample()
    ensures MatchFrom("john 3:16", 0) == Some(Reference("john", "3", "16"))
  {
    var a := "john 3:16";
    assert a[4] == ' ' && a[5] == '3' && a[6] == ':' && a[7] == '1' && a[8] == '6';
    assert RunEnd(a, 4, IsWordChar) == 4;
    assert RunEnd(a, 0, IsWordChar) == 4;
    assert RunEnd(a, 5, IsSpace) == 5;
    assert RunEnd(a, 4, IsSpace) == 5;
    assert RunEnd(a, 6, IsDigit) == 6;
    assert RunEnd(a, 5, IsDigit) == 6;
    assert RunEnd(a, 7, IsDigit) == 9;
    assert a[0..4] == "john" && a[5..6] == "3" && a[7..9] == "16";
    assert MatchAt(a, 0) == Some(Reference("john", "3", "16"));
  }

  // ----- processBible and processWiki -----

  /** An outcome of the `try` block: the reply to send, or the message of the error thrown. */
  datatype Outcome = Reply(text: string) | Thrown(message: string)

  /** A message carrying the bot's "[0x" error-code tag. */
  function Coded(body: string): string {
    "[0x" + body
  }

  const BibleSyntaxError: string := Coded("BIBLE_ERR] Syntax: .bible [Book] [Chapter:Verse]")
  const BiblePatternError: string := Coded("BIBLE_ERR] Invalid reference pattern")
  const BibleFailText: string := Coded("BIBLE_FAIL] Text retrieval error. Divine logic preserved.")
  const WikiSyntaxError: string := Coded("WIKI_ERR] Syntax: .wiki [topic]")
  const WikiFailText: string := Coded("WIKI_FAIL] Encyclopedic retrieval failure. Facts remain static.")

  /** The catch block: an error message containing "0x" is shown as it is, any other is replaced. */
  function CatchReply(message: string, generic: string): (r: string)
    ensures Contains(message, "0x") ==> r == message
    ensures !Contains(message, "0x") ==> r == generic
  {
    if Contains(message, "0x") then message else generic
  }

  /** Every tagged message contains "0x". */
  lemma CodedContains(body: string)
    ensures Contains(Coded(body), "0x")
  {
    assert Coded(body)[1..3] == "0x";
    assert OccursAt(Coded(body), "0x", 1);
  }

  /** The lower-cased cache key of a reference. */
  function RefKey(r: Reference): string {
    Lower(r.book + " " + r.chapter + ":" + r.verse)
  }

  /** The reply to a found verse. */
  function Scripture(key: string, verse: string, integrity: string): string {
    "[0xSCRIPTURE] " + key + "\n" + verse + "\nIntegrity: " + integrity
  }

  function BibleNotFound(key: string): string {
    Coded("BIBLE_NF] " + key + " not found")
  }

  /** The `try` block of `processBible` on reference text `text`; `integrity` is the verse's hash prefix. */
  function BibleLookup(cache: map<string, string>, text: string, integrity: string): (o: Outcome)
    ensures text == "" ==> o == Thrown(BibleSyntaxError)
    ensures text != "" && MatchFrom(text, 0).None? ==> o == Thrown(BiblePatternError)
    ensures text != "" && MatchFrom(text, 0).Some? ==>
              var key := RefKey(MatchFrom(text, 0).value);
              if key in cache && cache[key] != "" then o == Reply(Scripture(key, cache[key], integrity))
              else o == Thrown(BibleNotFound(key))
  {
    if text == "" then Thrown(BibleSyntaxError)
    else match MatchFrom(text, 0)
      case None => Thrown(BiblePatternError)
      case Some(r) =>
        var key := RefKey(r);
        if key in cache && cache[key] != "" then Reply(Scripture(key, cache[key], integrity))
        else Thrown(BibleNotFound(key))
  }

  /** `sub` occurs in `a + sub + b`. */
  lemma ContainsMiddle(a: string, sub: string, b: string)
    ensures Contains(a + sub + b, sub)
  {
    assert (a + sub + b)[|a|..|a| + |sub|] == sub;
    assert OccursAt(a + sub + b, sub, |a|);
  }

  /**
   * A well-formed reference is answered by name: the verse is found exactly when the cache holds a
   * non-empty text under its key, the reply then shows the key and the verse, and the miss names the key.
   */
  lemma LookupNamesKey(cache: map<string, string>, text: string, integrity: string)
    requires text != "" && MatchFrom(text, 0).Some?
    ensures var key := RefKey(MatchFrom(text, 0).value);
            var o := BibleLookup(cache, text, integrity);
            && (o.Reply? <==> key in cache && cache[key] != "")
            && (o.Reply? ==> Contains(o.text, key) && Contains(o.text, cache[key]))
            && (o.Thrown? ==> Contains(o.message, key))
  {
    var key := RefKey(MatchFrom(text, 0).value);
    if key in cache && cache[key] != "" {
      ScriptureShows(key, cache[key], integrity);
    } else {
      NotFoundNames(key);
    }
  }

  lemma ScriptureShows(key: string, verse: string, integrity: string)
    ensures Contains(Scripture(key, verse, integrity), key)
    ensures Contains(Scripture(key, verse, integrity), verse)
  {
    var head, tail := "[0xSCRIPTURE] ", "\nIntegrity: " + integrity;
    assert Scripture(key, verse, integrity) == head + key + ("\n" + verse + tail);
    ContainsMiddle(head, key, "\n" + verse + tail);
    assert Scripture(key, verse, integrity) == (head + key + "\n") + verse + tail;
    ContainsMiddle(head + key + "\n", verse, tail);
  }

  lemma NotFoundNames(key: string)
    ensures Contains(BibleNotFound(key), key)
  {
    assert BibleNotFound(key) == "[0xBIBLE_NF] " + key + " not found";
    ContainsMiddle("[0xBIBLE_NF] ", key, " not found");
  }

  /**
   * The messages a command handler sends for outcome `o`: the reply, or the catch block's. When
   * the reply itself is rejected with message `sendError`, the catch block replies once more.
   */
  function Replies(chat: string, o: Outcome, sendError: Option<string>, generic: string): (r: seq<Effect>)
    ensures |r| == if o.Reply? && sendError.Some? then 2 else 1
    ensures forall e :: e in r ==> e.Send? && e.chat == chat
    ensures o.Reply? ==> r[0] == Send(chat, o.text)
    ensures o.Thrown? && Contains(o.message, "0x") ==> r == [Send(chat, o.message)]
    ensures o.Thrown? && !Contains(o.message, "0x") ==> r == [Send(chat, generic)]
  {
    match o
    case Thrown(m) => [Send(chat, CatchReply(m, generic))]
    case Reply(t) =>
      if sendError.None? then [Send(chat, t)]
      else [Send(chat, t), Send(chat, CatchReply(sendError.value, generic))]
  }

  /** `processBible` for the text `conversation` of a message to `chat`. */
  function ProcessBible(cache: map<string, string>, chat: string, conversation: Option<string>, prefix: string,
                        integrity: string, sendError: Option<string>): (r: seq<Effect>)
    ensures forall e :: e in r ==> e.Send? && e.chat == chat
    ensures sendError.None? ==> |r| == 1
  {
    var o := BibleLookup(cache, ArgumentText(conversation, prefix, "bible"), integrity);
    Replies(chat, o, sendError, BibleFailText)
  }

  /** The lookup's own errors all carry "0x", so the user always sees them word for word. */
  lemma BibleErrorsEchoed(cache: map<string, string>, text: string, integrity: string, chat: string)
    requires BibleLookup(cache, text, integrity).Thrown?
    ensures Replies(chat, BibleLookup(cache, text, integrity), None, BibleFailText)
            == [Send(chat, BibleLookup(cache, text, integrity).message)]
  {
    if text == "" {
      CodedContains("BIBLE_ERR] Syntax: .bible [Book] [Chapter:Verse]");
    } else if MatchFrom(text, 0).None? {
      CodedContains("BIBLE_ERR] Invalid reference pattern");
    } else {
      CodedContains("BIBLE_NF] " + RefKey(MatchFrom(text, 0).value) + " not found");
    }
  }

  /** An empty reference is answered with the syntax error and nothing is looked up. */
  lemma EmptyReferenceIsSyntaxError(cache: map<string, string>, chat: string, prefix: string, integrity: string)
    ensures ProcessBible(cache, chat, Some(prefix + "bible"), prefix, integrity, None) == [Send(chat, BibleSyntaxError)]
    ensures ProcessBible(cache, chat, None, prefix, integrity, None) == [Send(chat, BibleSyntaxError)]
  {
    BibleErrorsEchoed(cache, "", integrity, chat);
    assert OccursAt(prefix + "bible", prefix + "bible", 0);
    assert ReplaceFirst(prefix + "bible", prefix + "bible", "") == "";
  }

  /** `WIKI_DATASET`. */
  const WikiDataset: map<string, string> := map[
    "quantum computing" := "Quantum computing utilizes qubits to perform calculations. Cold logic dominates this field.",
    "black hole" := "A region of spacetime exhibiting gravitational acceleration so strong that nothing—no particles or even electromagnetic radiation such as light—can escape from it.",
    "blockchain" := "Decentralized digital ledger. Immutable by design. Efficiency paramount."
  ]

  function WikiNotFound(query: string): string {
    Coded("WIKI_NF] " + Take(query, 12) + "... not in archive")
  }

  /** The `try` block of `processWiki` on the lower-cased query; `entropy` is the random number shown. */
  function WikiLookup(query: string, entropy: string): (o: Outcome)
    ensures query == "" ==> o == Thrown(WikiSyntaxError)
    ensures query != "" && query !in WikiDataset ==> o == Thrown(WikiNotFound(query))
    ensures query != "" && query in WikiDataset ==>
              o == Reply("[0xKNOWLEDGE] " + query + "\n" + WikiDataset[query] + "\nCache date: 2023-12-01 | Entropy: " + entropy)
  {
    if query == "" then Thrown(WikiSyntaxError)
    else if query !in WikiDataset || WikiDataset[query] == "" then Thrown(WikiNotFound(query))
    else Reply("[0xKNOWLEDGE] " + query + "\n" + WikiDataset[query] + "\nCache date: 2023-12-01 | Entropy: " + entropy)
  }

  /** `processWiki`: the query is trimmed, then lower-cased. */
  function ProcessWiki(chat: string, conversation: Option<string>, prefix: string, entropy: string,
                       sendError: Option<string>): (r: seq<Effect>)
    ensures forall e :: e in r ==> e.Send? && e.chat == chat
    ensures sendError.None? ==> |r| == 1
    ensures conversation.None? ==> r == [Send(chat, WikiSyntaxError)]
  {
    CodedContains("WIKI_ERR] Syntax: .wiki [topic]");
    Replies(chat, WikiLookup(Lower(ArgumentText(conversation, prefix, "wiki")), entropy), sendError, WikiFailText)
  }

  /** The not-found error shows at most the first 12 characters of the query, and the user sees it verbatim. */
  lemma WikiMissShowsTwelve(query: string, entropy: string, chat: string)
    requires query != "" && query !in WikiDataset
    ensures Replies(chat, WikiLookup(query, entropy), None, WikiFailText) == [Send(chat, WikiNotFound(query))]
    ensures |WikiNotFound(query)| <= 12 + 12 + 18
    ensures var shown := if |query| <= 12 then query else query[..12];
            WikiNotFound(query) == "[0xWIKI_NF] " + shown + "... not in archive"
  {
    CodedContains("WIKI_NF] " + Take(query, 12) + "... not in archive");
  }

  /**
   * The wiki query is the text after the first `prefix + "wiki"`, trimmed and then lower-cased: it
   * neither starts nor ends with white space and holds no upper-case letter.
   */
  lemma WikiQueryNormalised(conversation: string, prefix: string)
    ensures var q := Lower(ArgumentText(Some(conversation), prefix, "wiki"));
            && q == Lower(Trim(ReplaceFirst(conversation, prefix + "wiki", "")))
            && (q == [] || (!IsSpace(q[0]) && !IsSpace(q[|q| - 1])))
            && forall i :: 0 <= i < |q| ==> !IsUpper(q[i])
  {
    var t := Trim(ReplaceFirst(conversation, prefix + "wiki", ""));
    var q := Lower(t);
    if q != [] {
      assert q[0] == LowerChar(t[0]) && q[|q| - 1] == LowerChar(t[|t| - 1]);
    }
  }

  /** A query that, trimmed and lower-cased, names an article gets that article, whatever its spacing and case. */
  lemma WikiFindsTopic(chat: string, conversation: string, prefix: string, entropy: string)
    requires Lower(Trim(ReplaceFirst(conversation, prefix + "wiki", ""))) in WikiDataset
    ensures var q := Lower(Trim(ReplaceFirst(conversation, prefix + "wiki", "")));
            ProcessWiki(chat, Some(conversation), prefix, entropy, None)
            == [Send(chat, "[0xKNOWLEDGE] " + q + "\n" + WikiDataset[q] + "\nCache date: 2023-12-01 | Entropy: " + entropy)]
  {
    var q := Lower(Trim(ReplaceFirst(conversation, prefix + "wiki", "")));
    assert q != "" by { assert "" !in WikiDataset; }
  }

  /** `.wiki  Blockchain ` asks for the `blockchain` article. */
  lemma WikiQueryExample()
    ensures Lower(ArgumentText(Some(".wiki  Blockchain "), ".", "wiki")) == "blockchain"
    ensures "blockchain" in WikiDataset
  {
    ExampleArgument();
    ExampleLower();
  }

  lemma ExampleArgument()
    ensures ArgumentText(Some(".wiki  Blockchain "), ".", "wiki") == "Blockchain"
  {
    assert "." + "wiki" == ".wiki";
    ExampleReplace();
    ExampleTrim();
  }

  lemma ExampleReplace()
    ensures ReplaceFirst(".wiki  Blockchain ", ".wiki", "") == "  Blockchain "
  {
    var conversation := ".wiki  Blockchain ";
    assert OccursAt(conversation, ".wiki", 0) by { assert conversation[0..5] == ".wiki"; }
    assert IndexOf(conversation, ".wiki") == Some(0);
    assert conversation[5..] == "  Blockchain ";
  }

  lemma ExampleTrim()
    ensures Trim("  Blockchain ") == "Blockchain"
  {
    ExampleTrimStart();
    ExampleTrimEnd();
  }

  lemma ExampleTrimStart()
    ensures TrimStart("  Blockchain ") == "Blockchain "
  {
    var word := "Blockchain ";
    TwoSpacesTrimmed(word);
    assert "  Blockchain " == "  " + word;
  }

  /** Leading spaces before a word are trimmed away. */
  lemma TwoSpacesTrimmed(w: string)
    requires |w| > 0 && !IsSpace(w[0])
    ensures TrimStart("  " + w) == w
  {
    assert ("  " + w)[1..] == " " + w;
    assert (" " + w)[1..] == w;
  }

  lemma ExampleTrimEnd()
    ensures TrimEnd("Blockchain ") == "Blockchain"
  {
    var word := "Blockchain ";
    assert TrimEnd(word[..10]) == word[..10] by { assert !IsSpace(word[9]); }
    assert word[..10] == "Blockchain";
  }

  lemma ExampleLower()
    ensures Lower("Blockchain") == "blockchain"
  {
    var q := Lower("Blockchain");
    forall t | 0 <= t < |q|
      ensures q[t] == "blockchain"[t]
    {
      assert q[t] == LowerChar("Blockchain"[t]);
    }
  }
}
