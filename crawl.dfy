/** The traversal controller of wikimonscrape/scrape/process.py (and of the
    identical one in main.py): `get_evo_links` scrapes one page,
    `recurse_search` runs a LIFO worklist over the durable `scraped`
    ledger, and `resume_scrape`/`refill_links` seed one crawl per site
    that a store query returns. A run may not terminate on the real wiki,
    so every crawl here takes a `fuel` bound on the number of sites it
    pops. */
module Crawl {
  import opened Common
  import opened Store
  import opened Web
  import opened Refs
  import opened Extract

  /** The page title with at most one trailing "/" removed. */
  function StripTitle(raw: string): (title: string)
    ensures raw == title || raw == title + "/"
    ensures EndsWith(raw, "/") <==> raw == title + "/"
  {
    if EndsWith(raw, "/") then
      assert raw == raw[..|raw| - 1] + "/";
      raw[..|raw| - 1]
    else
      raw
  }

  /** `get_evo_links` starts work on `site`: a wiki path not yet scraped. */
  predicate Attempted(db: DbState, site: string)
  {
    StartsWith(site, "/") && !db.Scraped(site)
  }

  /** The record `get_evo_links` builds before registering it. */
  function Fresh(title: string, site: string, html: string): (d: ScrapeDigimon)
    ensures d.id.None? && d.name == title && d.url == site && d.html == Some(html)
    ensures d.prevLinks == [] && d.nextLinks == []
  {
    ScrapeDigimon(None, title, site, Some(false), [], [], Some(html))
  }

  /** The store has a row with `id` whose link columns hold `prev`/`nxt`. */
  ghost predicate LinksStored(db: DbState, id: int, prev: seq<string>, nxt: seq<string>)
  {
    exists i :: 0 <= i < |db.rows| && db.rows[i].id == id
                && db.rows[i].prevLinks == Some(prev) && db.rows[i].nextLinks == Some(nxt)
  }

  /** The part of `get_evo_links` after the page text `html` of `site` is
      in hand: a page outside the Digimon category gives `None`; otherwise
      the record is registered under the stripped title, its evolution
      links are extracted, stored for its id and returned with it. Scrapes
      no page: the ledger and the page attempts stay as they are. */
  function ScrapePage(w: World, env: Env, cfg: Config, site: string, html: string): (r: Step<Option<ScrapeDigimon>>)
    ensures Quiet(w, r.w)
    ensures !env.parse(html).digimonCategory ==> r == Step(w, Ok(None))
    ensures r.out.Ok? && r.out.value.Some? ==>
              var d := r.out.value.value;
              && env.parse(html).title.Some?
              && d == Fresh(StripTitle(env.parse(html).title.value), site, html).(id := d.id, prevLinks := d.prevLinks, nextLinks := d.nextLinks)
              && d.id.Some?
              && r.w.db.ExistsDigimon(d.name) == d.id
              && LinksStored(r.w.db, d.id.value, d.prevLinks, d.nextLinks)
              && (forall h :: h in d.prevLinks + d.nextLinks ==> PageLink(env.parse(html).items, h))
    ensures env.parse(html).digimonCategory && env.parse(html).title.None? ==> r == Step(w, Fail(AttributeError))
    ensures r.out.Ok? && r.out.value.Some? ==>
              var doc := env.parse(html);
              doc.title.Some? &&
              var reg := w.db.RegisterDigimon(Fresh(StripTitle(doc.title.value), site, html));
              var x := ExtractEvolutions(w.(db := reg.0), env, cfg, doc);
              var d := r.out.value.value;
              && d.id == reg.1.id
              && x.out == Ok((d.prevLinks, d.nextLinks))
              && r.w == x.w.(db := x.w.db.RegisterEvolutionLinks(d.prevLinks, d.nextLinks, d.id.value))
  {
    var doc := env.parse(html);
    if !doc.digimonCategory then Step(w, Ok(None))
    else match doc.title
      case None => Step(w, Fail(AttributeError))
      case Some(raw) =>
        var (db2, d) := w.db.RegisterDigimon(Fresh(StripTitle(raw), site, html));
        var w2 := w.(db := db2);
        var x := ExtractEvolutions(w2, env, cfg, doc);
        match x.out
        case Fail(e) => QuietTrans(w, w2, x.w); Step(x.w, Fail(e))
        case Ok((prev, nxt)) =>
          var d' := d.(prevLinks := prev, nextLinks := nxt);
          var w3 := x.w.(db := x.w.db.RegisterEvolutionLinks(prev, nxt, d.id.value));
          RegisteredLinksStored(w2, x.w, d, prev, nxt);
          QuietTrans(w, w2, x.w);
          QuietTrans(w, x.w, w3);
          Step(w3, Ok(Some(d')))
  }

  /** `get_evo_links`: `None` for a site that is not a wiki path; the
      stored record, with no request, for a scraped site; otherwise the
      attempt is logged, the page is requested (from the store's copy when
      it has a non-empty one) and scraped. The ledger is not touched. */
  function EvoLinks(w: World, env: Env, cfg: Config, site: string): (r: Step<Option<ScrapeDigimon>>)
    ensures w.log <= r.w.log && w.db.Grows(r.w.db) && r.w.db.ledger == w.db.ledger
    ensures Gettings(r.w.log) == Gettings(w.log) + (if Attempted(w.db, site) then [site] else [])
    ensures !StartsWith(site, "/") ==> r == Step(w, Ok(None))
    ensures StartsWith(site, "/") && w.db.Scraped(site) ==> r == Step(w, Ok(w.db.DigimonBySite(site)))
    ensures Attempted(w.db, site) && r.out.Ok? && r.out.value.Some? ==>
              var d := r.out.value.value;
              && d.url == site && d.id.Some?
              && r.w.db.ExistsDigimon(d.name) == d.id
              && LinksStored(r.w.db, d.id.value, d.prevLinks, d.nextLinks)
  {
    if !StartsWith(site, "/") then Step(w, Ok(None))
    else if w.db.Scraped(site) then Step(w, Ok(w.db.DigimonBySite(site)))
    else
      GettingsGetting(w.log, site);
      var w1 := w.(log := w.log + [Getting(site)]);
      var req := DelayedRequest(w1, env, site);
      match req.out
      case Fail(e) => Step(req.w, Fail(e))
      case Ok(html) =>
        var p := ScrapePage(req.w, env, cfg, site, html);
        QuietTrans(w1, req.w, p.w);
        p
  }

  /** Registering a fresh record for a page the store has no row or page
      for caches the page: `delayed_request` then answers from the store. */
  lemma FreshCachesPage(db: DbState, title: string, site: string, html: string)
    requires db.ExistsDigimon(title).None? && db.DigimonHtml(site).None?
    ensures db.RegisterDigimon(Fresh(title, site, html)).0.DigimonHtml(site) == Some(html)
  {
    var st := db.RegisterDigimon(Fresh(title, site, html)).0;
    assert st.rows[|db.rows|].url == site && st.rows[|db.rows|].html == Some(html);
    assert HtmlIndex(st.rows, site) == |db.rows|;
  }

  /** The row registered for `d` survives extraction, and overwriting the
      links of its id stores them in it. */
  lemma RegisteredLinksStored(w: World, w': World, d: ScrapeDigimon, prev: seq<string>, nxt: seq<string>)
    requires d.id.Some? && w.db.ExistsDigimon(d.name) == d.id && Quiet(w, w')
    ensures var db := w'.db.RegisterEvolutionLinks(prev, nxt, d.id.value);
            db.ExistsDigimon(d.name) == d.id && LinksStored(db, d.id.value, prev, nxt)
  {
    var db := w'.db.RegisterEvolutionLinks(prev, nxt, d.id.value);
    ExistsDigimonGrows(w.db, w'.db, d.name);
    ExistsDigimonGrows(w'.db, db, d.name);
    var k := NameIndex(w'.db.rows, d.name);
    assert w'.db.rows[k].id == d.id.value;
    assert db.rows[k].prevLinks == Some(prev) && db.rows[k].nextLinks == Some(nxt);
  }

  /** The links among `links` that are not scraped, in order: what one of
      `recurse_search`'s push loops appends. */
  function Unscraped(db: DbState, links: seq<string>): (r: seq<string>)
    ensures |r| <= |links|
    ensures forall s :: s in r <==> s in links && !db.Scraped(s)
  {
    if links == [] then []
    else
      var front := links[..|links| - 1];
      var last := links[|links| - 1];
      var pushed := Unscraped(db, front);
      assert links == front + [last];
      if db.Scraped(last) then pushed else pushed + [last]
  }

  /** The push loop keeps the links' order, and pushes every unscraped
      link as often as it is listed and no scraped one. */
  lemma {:induction false} UnscrapedInOrder(db: DbState, links: seq<string>)
    ensures SubSeq(Unscraped(db, links), links)
    ensures forall s :: multiset(Unscraped(db, links))[s] == if db.Scraped(s) then 0 else multiset(links)[s]
    decreases |links|
  {
    if links != [] {
      var front := links[..|links| - 1];
      var last := links[|links| - 1];
      UnscrapedInOrder(db, front);
      assert links == front + [last];
      SubSeqSnoc(last, Unscraped(db, front), front);
    }
  }

  /** One more link is pushed exactly when it is not scraped. */
  lemma UnscrapedSnoc(db: DbState, links: seq<string>, j: nat)
    requires j < |links|
    ensures Unscraped(db, links[..j + 1]) == Unscraped(db, links[..j]) + (if db.Scraped(links[j]) then [] else [links[j]])
  {
    assert links[..j + 1][..j] == links[..j] && links[..j + 1][j] == links[j];
  }

  /** One step of a push loop keeps the stack equal to the filtered prefix. */
  lemma PushOne(db: DbState, sites: seq<string>, links: seq<string>, j: nat, acc: seq<string>)
    requires j < |links| && acc == sites + Unscraped(db, links[..j])
    ensures (if db.Scraped(links[j]) then acc else acc + [links[j]]) == sites + Unscraped(db, links[..j + 1])
  {
    UnscrapedSnoc(db, links, j);
    AppendAssoc(sites, Unscraped(db, links[..j]), [links[j]]);
  }

  /** Filtering two lists in a row is filtering their concatenation. */
  lemma {:induction false} UnscrapedAppend(db: DbState, a: seq<string>, b: seq<string>)
    ensures Unscraped(db, a + b) == Unscraped(db, a) + Unscraped(db, b)
    decreases |b|
  {
    if b == [] {
      assert a + b == a;
    } else {
      var front := b[..|b| - 1];
      assert (a + b)[..|a + b| - 1] == a + front;
      assert (a + b)[|a + b| - 1] == b[|b| - 1];
      UnscrapedAppend(db, a, front);
    }
  }

  /** One iteration of `recurse_search`'s loop: pop a site; a scraped one
      pushes the stored links that are still unscraped, an unscraped one
      is visited for the first time. */
  function Visit(w: World, env: Env, cfg: Config, stack: seq<string>): (r: Step<seq<string>>)
    requires stack != []
    ensures w.log <= r.w.log && w.db.Grows(r.w.db)
    ensures var site := stack[|stack| - 1];
            && Gettings(r.w.log) == Gettings(w.log) + (if Attempted(w.db, site) then [site] else [])
            && r.w.db.ledger == w.db.ledger + (if !w.db.Scraped(site) && r.out.Ok? then {site} else {})
            && (w.db.Scraped(site) ==> r.w == w)
    ensures r.out.Ok? ==> stack[..|stack| - 1] <= r.out.value
    ensures r.out.Ok? ==> forall i :: |stack| - 1 <= i < |r.out.value| ==> !r.w.db.Scraped(r.out.value[i])
    ensures var site := stack[|stack| - 1];
            w.db.Scraped(site) ==> r.out.Ok? && PushesRecord(w.db, stack[..|stack| - 1], w.db.DigimonBySite(site), r.out.value)
    ensures var site := stack[|stack| - 1];
            var e := EvoLinks(w, env, cfg, site);
            !w.db.Scraped(site) && e.out.Ok? ==>
              r.out.Ok? && PushesRecord(r.w.db, stack[..|stack| - 1], e.out.value, r.out.value)
  {
    var site := stack[|stack| - 1];
    var rest := stack[..|stack| - 1];
    if w.db.Scraped(site) then Revisit(w, site, rest) else FirstVisit(w, env, cfg, site, rest)
  }

  /** A popped site that is already scraped: its stored links that are
      not scraped are pushed, previous ones first, and nothing else
      happens. */
  function Revisit(w: World, site: string, rest: seq<string>): (r: Step<seq<string>>)
    ensures r.w == w && r.out.Ok? && rest <= r.out.value
    ensures forall i :: |rest| <= i < |r.out.value| ==> !w.db.Scraped(r.out.value[i])
    ensures var d := w.db.DigimonBySite(site);
            forall s :: s in r.out.value[|rest|..] <==> d.Some? && s in d.value.prevLinks + d.value.nextLinks && !w.db.Scraped(s)
    ensures PushesRecord(w.db, rest, w.db.DigimonBySite(site), r.out.value)
  {
    match w.db.DigimonBySite(site)
    case None => Step(w, Ok(rest))
    case Some(d) =>
      var pushed := Unscraped(w.db, d.prevLinks + d.nextLinks);
      UnscrapedAppend(w.db, d.prevLinks, d.nextLinks);
      Step(w, Ok(rest + pushed))
  }

  /** A popped site that is not scraped goes through `get_evo_links`, is
      marked scraped whatever that returned, and the unscraped previous
      and then next links of the record are pushed. */
  function FirstVisit(w: World, env: Env, cfg: Config, site: string, rest: seq<string>): (r: Step<seq<string>>)
    requires !w.db.Scraped(site)
    ensures w.log <= r.w.log && w.db.Grows(r.w.db)
    ensures Gettings(r.w.log) == Gettings(w.log) + (if StartsWith(site, "/") then [site] else [])
    ensures r.w.db.ledger == w.db.ledger + (if r.out.Ok? then {site} else {})
    ensures r.out.Ok? ==> rest <= r.out.value
    ensures r.out.Ok? ==> forall i :: |rest| <= i < |r.out.value| ==> !r.w.db.Scraped(r.out.value[i])
    ensures var e := EvoLinks(w, env, cfg, site);
            && (e.out.Fail? ==> r == Step(e.w, Fail(e.out.error)))
            && (e.out.Ok? ==> && r.w == e.w.(db := e.w.db.MarkScraped(site)) && r.out.Ok?
                              && PushesRecord(r.w.db, rest, e.out.value, r.out.value))
  {
    var r := EvoLinks(w, env, cfg, site);
    match r.out
    case Fail(e) => Step(r.w, Fail(e))
    case Ok(res) =>
      var v := Settle(r.w, site, rest, res);
      assert v.w == r.w.(db := r.w.db.MarkScraped(site));
      v
  }

  /** What a first visit pushes are the links stored for the page's record:
      when `get_evo_links` returns a record, the row of its id holds
      exactly the two lists whose unscraped members were pushed. */
  lemma FirstVisitPushesStored(w: World, env: Env, cfg: Config, site: string, rest: seq<string>)
    requires !w.db.Scraped(site)
    ensures var e := EvoLinks(w, env, cfg, site);
            var r := FirstVisit(w, env, cfg, site, rest);
            e.out.Ok? && e.out.value.Some? ==>
              var d := e.out.value.value;
              && d.url == site && d.id.Some?
              && LinksStored(r.w.db, d.id.value, d.prevLinks, d.nextLinks)
              && r.out == Ok(PushLinks(r.w.db, rest, d.prevLinks, d.nextLinks))
  {
    var e := EvoLinks(w, env, cfg, site);
    var r := FirstVisit(w, env, cfg, site, rest);
    if e.out.Ok? && e.out.value.Some? {
      var d := e.out.value.value;
      assert StartsWith(site, "/");
      assert r.w.db.rows == e.w.db.rows;
    }
  }

  /** After `get_evo_links` returned `res` for `site`: mark the site and
      push the unscraped links of the record, if there is one. */
  function Settle(w: World, site: string, rest: seq<string>, res: Option<ScrapeDigimon>): (r: Step<seq<string>>)
    ensures r.w.log == w.log && r.w.db.rows == w.db.rows && r.w.db.refs == w.db.refs
    ensures r.w.db.ledger == w.db.ledger + {site} && r.out.Ok?
    ensures rest <= r.out.value
    ensures forall i :: |rest| <= i < |r.out.value| ==> !r.w.db.Scraped(r.out.value[i])
    ensures res.None? ==> r.out.value == rest
    ensures res.Some? ==> r.out.value == PushLinks(r.w.db, rest, res.value.prevLinks, res.value.nextLinks)
  {
    var w' := w.(db := w.db.MarkScraped(site));
    match res
    case None => Step(w', Ok(rest))
    case Some(d) => Step(w', Ok(PushLinks(w'.db, rest, d.prevLinks, d.nextLinks)))
  }

  /** `recurse_search`'s two push loops: the previous links, then the
      next links, that are not scraped. */
  function PushLinks(db: DbState, rest: seq<string>, prev: seq<string>, nxt: seq<string>): (r: seq<string>)
    ensures rest <= r && |r| <= |rest| + |prev| + |nxt|
    ensures forall i :: |rest| <= i < |r| ==> !db.Scraped(r[i]) && r[i] in prev + nxt
  {
    var pushed := Unscraped(db, prev) + Unscraped(db, nxt);
    UnscrapedAppend(db, prev, nxt);
    assert (rest + pushed)[|rest|..] == pushed;
    rest + pushed
  }

  /** What `PushLinks` pushes on top of `rest`: exactly the unscraped
      links, in the order listed, previous ones first, each as often as
      it is listed. */
  lemma PushLinksPushed(db: DbState, rest: seq<string>, prev: seq<string>, nxt: seq<string>)
    ensures var pushed := PushLinks(db, rest, prev, nxt)[|rest|..];
            && (forall s :: s in pushed <==> s in prev + nxt && !db.Scraped(s))
            && SubSeq(pushed, prev + nxt)
            && forall s :: multiset(pushed)[s] == if db.Scraped(s) then 0 else multiset(prev + nxt)[s]
  {
    var pushed := Unscraped(db, prev) + Unscraped(db, nxt);
    UnscrapedAppend(db, prev, nxt);
    UnscrapedInOrder(db, prev + nxt);
    assert (rest + pushed)[|rest|..] == pushed;
  }

  /** The stack after a record `res` is settled: unchanged without a
      record, otherwise `PushLinks` of the record's previous and next
      links. */
  predicate PushesRecord(db: DbState, rest: seq<string>, res: Option<ScrapeDigimon>, stack: seq<string>)
  {
    match res
    case None => stack == rest
    case Some(d) => stack == PushLinks(db, rest, d.prevLinks, d.nextLinks)
  }

  /** `Crawl` with sites left and fuel left is one `Visit` and the rest. */
  lemma CrawlUnfold(w: World, env: Env, cfg: Config, stack: seq<string>, fuel: nat, fewer: nat)
    requires stack != [] && fuel == fewer + 1
    ensures Crawl(w, env, cfg, stack, fuel) == AfterVisit(Visit(w, env, cfg, stack), env, cfg, fewer)
  {
  }

  /** The page attempts a crawl adds to the log. */
  function Attempts(before: World, after: World): seq<string>
  {
    var g := Gettings(before.log);
    var g' := Gettings(after.log);
    if g <= g' then g'[|g|..] else []
  }

  /** What a crawl promises about the pages it works on, in a store with
      no row flagged 0: it only grows the store, it attempts each page at
      most once and only pages that were wiki paths not scraped when it
      started, and when it succeeds every attempted page ends up
      scraped. */
  ghost predicate Disciplined(w: World, r: World, ok: bool)
  {
    Grew(w, r) && AttemptsFresh(w, r) && (ok ==> AttemptsDone(w, r))
  }

  /** The log and the store only grew, still with no row flagged 0. */
  ghost predicate Grew(w: World, r: World)
  {
    && w.log <= r.log
    && w.db.Grows(r.db)
    && r.db.NoFalseFlag()
    && Gettings(w.log) <= Gettings(r.log)
  }

  /** Each page attempted between `w` and `r` was attempted once, and was
      a wiki path not scraped in `w`. */
  ghost predicate AttemptsFresh(w: World, r: World)
  {
    && NoDup(Attempts(w, r))
    && (forall s :: s in Attempts(w, r) ==> StartsWith(s, "/") && !w.db.Scraped(s))
  }

  /** Each page attempted between `w` and `r` is scraped in `r`. */
  ghost predicate AttemptsDone(w: World, r: World)
  {
    forall s :: s in Attempts(w, r) ==> r.db.Scraped(s)
  }

  /** One visit is disciplined. */
  lemma VisitDisciplined(w: World, env: Env, cfg: Config, stack: seq<string>)
    requires stack != [] && w.db.NoFalseFlag()
    ensures var v := Visit(w, env, cfg, stack);
            Disciplined(w, v.w, v.out.Ok?)
  {
    var v := Visit(w, env, cfg, stack);
    var site := stack[|stack| - 1];
    OneAttemptDisciplined(w, v.w, v.out.Ok?, site);
  }

  /** A step that attempts at most `site`, and marks it when it succeeds,
      is disciplined. */
  lemma OneAttemptDisciplined(w: World, w': World, ok: bool, site: string)
    requires w.db.NoFalseFlag() && w.log <= w'.log && w.db.Grows(w'.db)
    requires Gettings(w'.log) == Gettings(w.log) + (if Attempted(w.db, site) then [site] else [])
    requires ok && Attempted(w.db, site) ==> site in w'.db.ledger
    ensures Disciplined(w, w', ok)
  {
    GrowsNoFalseFlag(w.db, w'.db);
    var a := if Attempted(w.db, site) then [site] else [];
    assert Attempts(w, w') == a;
    if ok && a != [] {
      assert !w'.db.HasFlag(site, false);
    }
  }

  /** Disciplined runs compose. */
  lemma DisciplinedTrans(a: World, b: World, c: World, okB: bool, okC: bool)
    requires a.db.NoFalseFlag()
    requires Disciplined(a, b, okB) && okB && Disciplined(b, c, okC)
    ensures Disciplined(a, c, okC)
  {
    var ab := Attempts(a, b);
    var bc := Attempts(b, c);
    SuffixSplit(Gettings(a.log), Gettings(b.log), Gettings(c.log));
    assert Attempts(a, c) == ab + bc;
    GrowsTrans(a.db, b.db, c.db);
    forall s | s in bc
      ensures s !in ab && !a.db.Scraped(s)
    {
      assert !b.db.Scraped(s);
      ScrapedMonotone(a.db, b.db, s);
    }
    forall i, j | 0 <= i < j < |ab + bc|
      ensures (ab + bc)[i] != (ab + bc)[j]
    {
      if i < |ab| && j >= |ab| {
        assert (ab + bc)[j] in bc;
        assert (ab + bc)[i] in ab;
      }
    }
    assert NoDup(Attempts(a, c));
    if okC {
      forall s | s in ab
        ensures c.db.Scraped(s)
      {
        ScrapedMonotone(b.db, c.db, s);
      }
    }
  }

  /** Cutting a common prefix off a chain of prefixes. */
  lemma SuffixSplit<T>(x: seq<T>, y: seq<T>, z: seq<T>)
    requires x <= y && y <= z
    ensures x <= z && z[|x|..] == y[|x|..] + z[|y|..]
  {
    assert z == y + z[|y|..];
    assert y == x + y[|x|..];
  }

  /** `recurse_search` from the stack `stack`, popping at most `fuel`
      sites; on success the result is the stack left over, empty when the
      crawl finished. */
  function Crawl(w: World, env: Env, cfg: Config, stack: seq<string>, fuel: nat): (r: Step<seq<string>>)
    ensures w.log <= r.w.log && w.db.Grows(r.w.db)
    decreases fuel, 0
  {
    if stack == [] || fuel == 0 then Step(w, Ok(stack))
    else
      var v := Visit(w, env, cfg, stack);
      var r := AfterVisit(v, env, cfg, fuel - 1);
      GrowsTrans(w.db, v.w.db, r.w.db);
      r
  }

  /** The rest of a crawl after one visit `v`: its failure, or the crawl
      from the stack it leaves. */
  function AfterVisit(v: Step<seq<string>>, env: Env, cfg: Config, fuel: nat): (r: Step<seq<string>>)
    ensures v.w.log <= r.w.log && v.w.db.Grows(r.w.db)
    decreases fuel, 1
  {
    if v.out.Fail? then Step(v.w, Fail(v.out.error))
    else Crawl(v.w, env, cfg, v.out.value, fuel)
  }

  /** It never revisits a page: in a store with no row flagged 0 every
      crawl is disciplined. */
  lemma {:induction false} CrawlDisciplined(w: World, env: Env, cfg: Config, stack: seq<string>, fuel: nat)
    requires w.db.NoFalseFlag()
    ensures var r := Crawl(w, env, cfg, stack, fuel);
            Disciplined(w, r.w, r.out.Ok?)
    decreases fuel
  {
    if stack == [] || fuel == 0 {
      StandStillDisciplined(w);
    } else {
      var fewer := fuel - 1;
      var v := Visit(w, env, cfg, stack);
      var r := Crawl(w, env, cfg, stack, fuel);
      VisitDisciplined(w, env, cfg, stack);
      CrawlUnfold(w, env, cfg, stack, fuel, fewer);
      if v.out.Ok? {
        assert Grew(w, v.w);
        CrawlDisciplined(v.w, env, cfg, v.out.value, fewer);
      }
      ThenDisciplined(w, v, r);
    }
  }

  /** A disciplined step followed, when it succeeds, by a disciplined
      rest is disciplined. */
  lemma ThenDisciplined<T>(w: World, v: Step<T>, r: Step<T>)
    requires w.db.NoFalseFlag() && Disciplined(w, v.w, v.out.Ok?)
    requires v.out.Fail? ==> r == Step(v.w, Fail(v.out.error))
    requires v.out.Ok? ==> Disciplined(v.w, r.w, r.out.Ok?)
    ensures Disciplined(w, r.w, r.out.Ok?)
  {
    if v.out.Ok? {
      DisciplinedTrans(w, v.w, r.w, true, r.out.Ok?);
    }
  }

  /** Doing nothing is disciplined. */
  lemma StandStillDisciplined(w: World)
    requires w.db.NoFalseFlag()
    ensures Disciplined(w, w, true) && Disciplined(w, w, false)
  {
    assert Attempts(w, w) == [];
  }

  /** A row flagged 0 vetoes the ledger: a wiki path it names is attempted
      again on every visit, however often it was marked. */
  lemma VetoedSiteAttemptedAgain(w: World, env: Env, cfg: Config, site: string)
    requires StartsWith(site, "/") && site in w.db.ledger
    requires w.db.HasFlag(site, false) && !w.db.HasFlag(site, true)
    ensures Gettings(Visit(w, env, cfg, [site]).w.log) == Gettings(w.log) + [site]
  {
  }

  /** One `recurse_search` per seed, in order, each popping at most `fuel`
      sites; an exception ends the whole run. `done` records whether every
      crawl so far finished within its fuel. */
  function CrawlAll(w: World, env: Env, cfg: Config, seeds: seq<string>, fuel: nat, done: bool): (r: Step<bool>)
    ensures r.out.Ok? && r.out.value ==> done
    decreases |seeds|
  {
    if seeds == [] then Step(w, Ok(done))
    else
      var c := Crawl(w, env, cfg, [seeds[0]], fuel);
      match c.out
      case Fail(e) => Step(c.w, Fail(e))
      case Ok(left) => CrawlAll(c.w, env, cfg, seeds[1..], fuel, done && left == [])
  }

  /** Running the seeds `a` and then the seeds `b` is running `a + b`. */
  lemma {:induction false} CrawlAllAppend(w: World, env: Env, cfg: Config, a: seq<string>, b: seq<string>, fuel: nat, done: bool)
    ensures var p := CrawlAll(w, env, cfg, a, fuel, done);
            CrawlAll(w, env, cfg, a + b, fuel, done)
            == if p.out.Fail? then p else CrawlAll(p.w, env, cfg, b, fuel, p.out.value)
    decreases |a|
  {
    if a == [] {
      assert a + b == b;
    } else {
      assert (a + b)[0] == a[0] && (a + b)[1..] == a[1..] + b;
      var c := Crawl(w, env, cfg, [a[0]], fuel);
      if c.out.Ok? {
        CrawlAllAppend(c.w, env, cfg, a[1..], b, fuel, done && c.out.value == []);
      }
    }
  }

  /** A run that reports it finished finished every seed: for each seed,
      the crawl from the world the earlier seeds left behind succeeded
      with an empty stack. */
  lemma CrawlAllEachSeedFinished(w: World, env: Env, cfg: Config, a: seq<string>, seed: string, b: seq<string>,
                                 fuel: nat, done: bool)
    requires CrawlAll(w, env, cfg, a + [seed] + b, fuel, done).out == Ok(true)
    ensures var p := CrawlAll(w, env, cfg, a, fuel, done);
            p.out == Ok(true) && Crawl(p.w, env, cfg, [seed], fuel).out == Ok([])
  {
    var sb := [seed] + b;
    assert a + [seed] + b == a + sb;
    CrawlAllAppend(w, env, cfg, a, sb, fuel, done);
    var p := CrawlAll(w, env, cfg, a, fuel, done);
    assert p.out.Ok?;
    var q := CrawlAll(p.w, env, cfg, sb, fuel, p.out.value);
    var c := Crawl(p.w, env, cfg, [seed], fuel);
    assert sb[0] == seed && sb[1..] == b;
    assert c.out.Ok? ==> q == CrawlAll(c.w, env, cfg, b, fuel, p.out.value && c.out.value == []);
  }

  /** A whole run is disciplined too: across all seeds no page is
      attempted twice. */
  lemma {:induction false} CrawlAllDisciplined(w: World, env: Env, cfg: Config, seeds: seq<string>, fuel: nat, done: bool)
    requires w.db.NoFalseFlag()
    ensures var r := CrawlAll(w, env, cfg, seeds, fuel, done);
            Disciplined(w, r.w, r.out.Ok?)
    decreases |seeds|
  {
    if seeds == [] {
      StandStillDisciplined(w);
    } else {
      var c := Crawl(w, env, cfg, [seeds[0]], fuel);
      CrawlDisciplined(w, env, cfg, [seeds[0]], fuel);
      if c.out.Ok? {
        var r := CrawlAll(c.w, env, cfg, seeds[1..], fuel, done && c.out.value == []);
        assert c.w.db.NoFalseFlag();
        CrawlAllDisciplined(c.w, env, cfg, seeds[1..], fuel, done && c.out.value == []);
        DisciplinedTrans(w, c.w, r.w, true, r.out.Ok?);
      }
    }
  }

  /** The seeds of `resume_scrape`: the linked sites not yet scraped, in
      the order the query returns them. */
  ghost predicate ResumeSeeds(db: DbState, seeds: seq<string>)
  {
    NoDup(seeds) && forall s :: s in seeds <==> s in db.GetUnscrapedLinks()
  }

  /** `resume_scrape` seeds a crawl only from sites that are not scraped,
      and, with no row flagged 0, from every linked site that is not. */
  lemma ResumeSeedsUnscraped(db: DbState, seeds: seq<string>)
    requires ResumeSeeds(db, seeds)
    ensures forall s :: s in seeds ==> s in db.LinkSites() && !db.Scraped(s)
    ensures db.NoFalseFlag() ==> forall s :: s in db.LinkSites() && !db.Scraped(s) ==> s in seeds
  {
    forall s | s in seeds
      ensures s in db.LinkSites() && !db.Scraped(s)
    {
      UnscrapedLinksSound(db, s);
    }
    if db.NoFalseFlag() {
      forall s | s in db.LinkSites() && !db.Scraped(s)
        ensures s in seeds
      {
        UnscrapedLinksComplete(db, s);
      }
    }
  }
}
