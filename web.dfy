/** What the crawler sees of the outside world. The wiki is an oracle from
    an href to a response, the HTML parser is a function from page text to
    an abstract document, and every network request and every page attempt
    is recorded in a log, so that "fetched at most once" and "never
    revisited" can be stated about a run. */
module Web {
  import opened Common
  import opened Store

  /** A node the extractor selects, in document order: an `h2` heading, or
      a titled anchor inside a list item that is the first `a` among its
      siblings (there may be several per list item, at any depth),
      together with the hrefs of all anchors of its nearest enclosing
      list item. Texts are already stripped of surrounding whitespace. */
  datatype Item =
    | Heading(text: string)
    | Link(text: string, href: string, anchors: seq<string>)

  /** A parsed page.
      `notes` maps a citation id to the href of the first anchor inside
      that note's reference text, `None` for an anchor without href; an id
      that is absent has no such anchor in any references area.
      `digimonCategory`/`cardCategory` say whether the page carries the
      `Category:Digimon` catalogue link or a `Category:List of Cards` link;
      `title` is the stripped text of `#firstHeading`, and `hasH1` whether
      the page has any `h1` at all. */
  datatype Doc = Doc(
    items: seq<Item>,
    notes: map<string, Option<string>>,
    digimonCategory: bool,
    cardCategory: bool,
    title: Option<string>,
    hasH1: bool)

  /** An exception, told apart only as far as the crawler's `except`
      clauses do. */
  datatype Raised = AttributeError | OtherError

  /** What an HTTP GET of a wiki href gives: the body text, or an
      exception. */
  datatype Response = Body(html: string) | Raises(error: Raised)

  /** The wiki, the parser and the percent-encoding used for ref keys. */
  datatype Env = Env(web: string -> Response, parse: string -> Doc, quote: string -> string)

  /** How candidates are thresholded: process.py's rule, which waives the
      minimum when a direction has at most `lowEvoCount` candidates, or the
      older rule of main.py, which always applies it. */
  datatype Policy = LowCountBypass(lowEvoCount: int) | MinRefsOnly

  /** The run configuration: `MIN_REFERENCES`, the threshold policy,
      `IGNORE_CARD_ONLY_REFS` and `ASSUME_CARDS_FILLED`. */
  datatype Config = Config(minRefs: int, policy: Policy, ignoreCardOnly: bool, assumeCardsFilled: bool)

  /** `Getting(site)`: the crawler starts work on a page it has not
      scraped; `Fetch(href)`: a network request. */
  datatype Event = Getting(site: string) | Fetch(href: string)

  datatype Outcome<T> = Ok(value: T) | Fail(error: Raised)

  /** The store and the log of what the crawler did. */
  datatype World = World(db: DbState, log: seq<Event>)

  /** The world after an operation and the operation's outcome. */
  datatype Step<T> = Step(w: World, out: Outcome<T>)

  /** The sites of the `Getting` events of a log, in order. */
  function Gettings(log: seq<Event>): (r: seq<string>)
    ensures |r| <= |log|
  {
    if log == [] then []
    else
      var front := Gettings(log[..|log| - 1]);
      assert log == log[..|log| - 1] + [log[|log| - 1]];
      match log[|log| - 1]
      case Getting(s) => front + [s]
      case Fetch(_) => front
  }

  /** The sites of a log's `Getting` events are exactly the sites it
      attempted. */
  lemma {:induction false} GettingsMembers(log: seq<Event>)
    ensures forall s :: s in Gettings(log) <==> Getting(s) in log
    decreases |log|
  {
    if log != [] {
      var front := log[..|log| - 1];
      GettingsMembers(front);
      assert log == front + [log[|log| - 1]];
    }
  }

  /** Appending a `Fetch` leaves the page attempts unchanged. */
  lemma GettingsFetch(log: seq<Event>, href: string)
    ensures Gettings(log + [Fetch(href)]) == Gettings(log)
  {
    assert (log + [Fetch(href)])[..|log|] == log;
  }

  /** Appending a `Getting` adds its site. */
  lemma GettingsGetting(log: seq<Event>, site: string)
    ensures Gettings(log + [Getting(site)]) == Gettings(log) + [site]
  {
    assert (log + [Getting(site)])[..|log|] == log;
  }

  /** `w'` is `w` after work that scraped no page: the store only grew,
      the ledger is unchanged, and the log only gained requests. */
  ghost predicate Quiet(w: World, w': World)
  {
    && w.db.Grows(w'.db)
    && w'.db.ledger == w.db.ledger
    && w.log <= w'.log
    && Gettings(w'.log) == Gettings(w.log)
  }

  lemma QuietTrans(a: World, b: World, c: World)
    requires Quiet(a, b) && Quiet(b, c)
    ensures Quiet(a, c)
  {
  }

  /** Work that scraped no page changes no site's scraped status. */
  lemma QuietKeepsScraped(w: World, w': World, site: string)
    requires Quiet(w, w')
    ensures w'.db.Scraped(site) <==> w.db.Scraped(site)
  {
    forall flag: bool
      ensures w'.db.HasFlag(site, flag) <==> w.db.HasFlag(site, flag)
    {
      if w'.db.HasFlag(site, flag) {
        var i :| 0 <= i < |w'.db.rows| && w'.db.rows[i].url == site && w'.db.rows[i].scraped == Some(flag);
        assert i < |w.db.rows|;
        assert w.db.rows[i].url == site && w.db.rows[i].scraped == Some(flag);
      }
      if w.db.HasFlag(site, flag) {
        var i :| 0 <= i < |w.db.rows| && w.db.rows[i].url == site && w.db.rows[i].scraped == Some(flag);
        assert w'.db.rows[i].url == site && w'.db.rows[i].scraped == Some(flag);
      }
    }
  }
}
