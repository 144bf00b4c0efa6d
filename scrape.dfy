/** The crawler of wikimonscrape/scrape/process.py as the program runs it:
    a store it writes in place, a log of requests and page attempts, and
    the loops of `get_ref_data`, `extract_evolutions` and
    `recurse_search`. Every method is proved to leave the store and the
    log as the corresponding function of modules Refs, Extract and Crawl
    describes, so the properties proved there hold of these loops. */
module Scrape {
  import opened Common
  import opened Store
  import opened Web
  import opened Refs
  import opened Extract
  import opened Crawl

  class Crawler {
    /** The module-level `DigiDB` instance. */
    const db: DigiDB
    /** The wiki, the parser and `quote`. */
    const env: Env
    /** `MIN_REFERENCES`, `LOW_EVO_COUNT`, `IGNORE_CARD_ONLY_REFS` and
        `ASSUME_CARDS_FILLED`. */
    const cfg: Config
    /** What the crawler has requested and attempted so far. */
    var log: seq<Event>

    /** The store and the log as one world. */
    function Now(): World
      reads this, db
    {
      World(db.State(), log)
    }

    constructor (db: DigiDB, env: Env, cfg: Config)
      ensures this.db == db && this.env == env && this.cfg == cfg && log == []
    {
      this.db := db;
      this.env := env;
      this.cfg := cfg;
      log := [];
    }

    /** `delayed_request`. */
    method DelayedRequest(href: string) returns (out: Outcome<string>)
      modifies this
      ensures Step(Now(), out) == Refs.DelayedRequest(old(Now()), env, href)
    {
      var cached := db.State().DigimonHtml(href);
      if cached.Some? && cached.value != "" {
        return Ok(cached.value);
      }
      log := log + [Fetch(href)];
      match env.web(href)
      case Body(html) => out := Ok(html);
      case Raises(e) => out := Fail(e);
    }

    /** `create_ref`. */
    method CreateRef(href: string) returns (out: Outcome<bool>)
      modifies this, db
      ensures Step(Now(), out) == Refs.CreateRef(old(Now()), env, href)
    {
      var req := DelayedRequest(href);
      match req
      case Fail(e) => out := Fail(e);
      case Ok(html) =>
        var isCard := env.parse(html).cardCategory;
        db.CreateRef(href, html, isCard);
        out := Ok(isCard);
    }

    /** `is_cardgame_ref`. */
    method IsCardgameRef(href: string) returns (out: Outcome<bool>)
      modifies this, db
      ensures Step(Now(), out) == Refs.IsCardgameRef(old(Now()), env, cfg.assumeCardsFilled, href)
    {
      var (found, isCard) := db.State().GetRef(env.quote(href), href);
      if found {
        return Ok(isCard);
      }
      if cfg.assumeCardsFilled {
        return Ok(false);
      }
      out := CreateRef(href);
    }

    /** `get_ref_data` for the list item whose anchors are `anchors`. */
    method GetRefData(notes: map<string, Option<string>>, anchors: seq<string>) returns (out: Outcome<RefTally>)
      modifies this, db
      ensures Step(Now(), out) == RefData(old(Now()), env, cfg.assumeCardsFilled, notes, anchors)
    {
      var markers := CiteMarkers(anchors);
      var onlyCard, noncard := true, 0;
      ghost var w := Now();
      ghost var target := RefLoop(w, env, cfg.assumeCardsFilled, notes, markers, true, 0);
      for i := 0 to |markers|
        invariant w == Now()
        invariant RefLoop(w, env, cfg.assumeCardsFilled, notes, markers[i..], onlyCard, noncard) == target
      {
        RefLoopUnfold(w, env, cfg.assumeCardsFilled, notes, markers[i..], onlyCard, noncard);
        assert markers[i..][0] == markers[i] && markers[i..][1..] == markers[i + 1..];
        var step := CountCitation(notes, markers[i], onlyCard, noncard);
        if step.Fail? {
          return Fail(step.error);
        }
        w := Now();
        onlyCard, noncard := step.value.0, step.value.1;
      }
      out := Ok(RefTally(onlyCard, noncard, |markers|));
    }

    /** The body of `get_ref_data`'s loop for the citation `marker`. */
    method CountCitation(notes: map<string, Option<string>>, marker: string, onlyCard: bool, noncard: nat)
      returns (out: Outcome<(bool, nat)>)
      modifies this, db
      ensures Step(Now(), out) == RefStep(old(Now()), env, cfg.assumeCardsFilled, notes, marker, onlyCard, noncard)
    {
      out := Ok((onlyCard, noncard));
      var id := NoteId(marker);
      if id in notes {
        match notes[id]
        case None =>
          out := Fail(AttributeError);
        case Some(target) =>
          if !Contains(Lower(target), BattleSpiritsTag) && StartsWith(target, "/") {
            var c := IsCardgameRef(target);
            match c
            case Fail(AttributeError) =>
            case Fail(OtherError) =>
              out := Fail(OtherError);
            case Ok(isCard) =>
              if !isCard {
                out := Ok((false, noncard + 1));
              }
          }
      }
    }

    /** `extract_evolutions`: the candidates of each direction, then the
        threshold of each direction, and the `h1` read of process.py when
        both come out empty. */
    method ExtractEvolutions(doc: Doc) returns (out: Outcome<(seq<string>, seq<string>)>)
      modifies this, db
      ensures Step(Now(), out) == Extract.ExtractEvolutions(old(Now()), env, cfg, doc)
    {
      var collected := CollectCandidates(doc);
      if collected.Fail? {
        return Fail(collected.error);
      }
      var (ps, ns) := collected.value;
      var prev := Select(ps, cfg);
      var next := Select(ns, cfg);
      if cfg.policy.LowCountBypass? && prev == [] && next == [] && !doc.hasH1 {
        return Fail(AttributeError);
      }
      out := Ok((prev, next));
    }

    /** The loop of `extract_evolutions`: one pass over the page's headings
        and list links with the mode register, collecting each candidate
        with its count of non-card citations. */
    method CollectCandidates(doc: Doc) returns (out: Outcome<(seq<Cand>, seq<Cand>)>)
      modifies this, db
      ensures Step(Now(), out) == Collect(old(Now()), env, cfg.assumeCardsFilled, cfg.ignoreCardOnly, doc.notes,
                                          Scan(doc.items, Whatever), [], [])
    {
      var items := doc.items;
      var ps: seq<Cand>, ns: seq<Cand> := [], [];
      var mode := Whatever;
      ghost var start := Now();
      ghost var target := Collect(start, env, cfg.assumeCardsFilled, cfg.ignoreCardOnly, doc.notes,
                                  Scan(items, Whatever), [], []);
      var i := 0;
      while i < |items|
        invariant 0 <= i <= |items|
        invariant Collect(Now(), env, cfg.assumeCardsFilled, cfg.ignoreCardOnly, doc.notes,
                          Scan(items[i..], mode), ps, ns) == target
      {
        var item := items[i];
        if Yields(item, mode) {
          CollectAt(Now(), env, cfg.assumeCardsFilled, cfg.ignoreCardOnly, doc.notes, items, i, mode, ps, ns);
          var placed := KeepCandidate(doc.notes, mode, item, ps, ns);
          if placed.Fail? {
            return Fail(placed.error);
          }
          ps, ns := placed.value.0, placed.value.1;
        } else {
          ScanUnfold(items, i, mode);
          match NextMode(item, mode)
          case None =>
            break;
          case Some(m) =>
            mode := m;
        }
        i := i + 1;
      }
      out := Ok((ps, ns));
    }

    /** The body of `extract_evolutions`' loop for a link that is a
        candidate in `mode`: its citations are counted, and it is appended
        to the list of its direction unless it is card-only and those are
        ignored. */
    method KeepCandidate(notes: map<string, Option<string>>, mode: Mode, item: Item, ps: seq<Cand>, ns: seq<Cand>)
      returns (out: Outcome<(seq<Cand>, seq<Cand>)>)
      requires item.Link?
      modifies this, db
      ensures Step(Now(), out) == CollectOne(old(Now()), env, cfg.assumeCardsFilled, cfg.ignoreCardOnly, notes,
                                             Candidate(mode, item.text, item.href, item.anchors), ps, ns)
    {
      var tally := GetRefData(notes, item.anchors);
      if tally.Fail? {
        return Fail(tally.error);
      }
      var t := tally.value;
      var ps', ns' := ps, ns;
      if !(t.onlyCard && cfg.ignoreCardOnly) {
        if mode == Prev {
          ps' := ps + [Cand(item.href, t.noncard)];
        } else if mode == Next {
          ns' := ns + [Cand(item.href, t.noncard)];
        }
      }
      out := Ok((ps', ns'));
    }

    /** `get_evo_links`. */
    method GetEvoLinks(site: string) returns (out: Outcome<Option<ScrapeDigimon>>)
      modifies this, db
      ensures Step(Now(), out) == EvoLinks(old(Now()), env, cfg, site)
    {
      if !StartsWith(site, "/") {
        return Ok(None);
      }
      if db.State().Scraped(site) {
        return Ok(db.State().DigimonBySite(site));
      }
      log := log + [Getting(site)];
      ghost var requested := Now();
      var response := DelayedRequest(site);
      if response.Fail? {
        return Fail(response.error);
      }
      var html := response.value;
      var doc := env.parse(html);
      if !doc.digimonCategory {
        return Ok(None);
      }
      if doc.title.None? {
        return Fail(AttributeError);
      }
      var digimon := db.RegisterDigimon(Fresh(StripTitle(doc.title.value), site, html));
      var links := ExtractEvolutions(doc);
      if links.Fail? {
        return Fail(links.error);
      }
      var (prev, nxt) := links.value;
      digimon := digimon.(prevLinks := prev, nextLinks := nxt);
      db.RegisterEvolutionLinks(prev, nxt, digimon.id.value);
      out := Ok(Some(digimon));
    }

    /** One of `recurse_search`'s push loops: each of `links` that is not
        scraped is appended to the stack. */
    method PushUnscraped(sites: seq<string>, links: seq<string>) returns (sites': seq<string>)
      ensures sites' == sites + Unscraped(db.State(), links)
    {
      ghost var st := db.State();
      sites' := sites;
      for j := 0 to |links|
        invariant st == db.State()
        invariant sites' == sites + Unscraped(st, links[..j])
      {
        PushOne(st, sites, links, j, sites');
        if !db.State().Scraped(links[j]) {
          sites' := sites' + [links[j]];
        }
      }
      assert links[..|links|] == links;
    }

    /** `recurse_search` from `start`, popping at most `fuel` sites; on
        success the stack left over. */
    method RecurseSearch(start: string, fuel: nat) returns (out: Outcome<seq<string>>)
      modifies this, db
      ensures Step(Now(), out) == Crawl.Crawl(old(Now()), env, cfg, [start], fuel)
    {
      var sites := [start];
      var left: nat := fuel;
      ghost var target := Crawl.Crawl(Now(), env, cfg, sites, left);
      ghost var w := Now();
      while sites != [] && left > 0
        invariant w == Now()
        invariant Crawl.Crawl(w, env, cfg, sites, left) == target
        decreases left
      {
        var fewer := left - 1;
        CrawlUnfold(w, env, cfg, sites, left, fewer);
        var next := VisitTop(sites);
        if next.Fail? {
          return Fail(next.error);
        }
        w, sites, left := Now(), next.value, fewer;
      }
      out := Ok(sites);
    }

    /** The body of `recurse_search`'s loop: pop a site and push what it
        leads to. */
    method VisitTop(sites: seq<string>) returns (out: Outcome<seq<string>>)
      requires sites != []
      modifies this, db
      ensures Step(Now(), out) == Visit(old(Now()), env, cfg, sites)
    {
      var site := sites[|sites| - 1];
      var rest := sites[..|sites| - 1];
      if db.State().Scraped(site) {
        var pushed := Revisit(site, rest);
        out := Ok(pushed);
      } else {
        out := FirstVisit(site, rest);
      }
    }

    /** A popped site that is already scraped pushes its stored links that
        are not. */
    method Revisit(site: string, rest: seq<string>) returns (sites: seq<string>)
      ensures Step(Now(), Ok(sites)) == Crawl.Revisit(Now(), site, rest)
    {
      sites := rest;
      var digimon := db.State().DigimonBySite(site);
      if digimon.Some? {
        sites := PushUnscraped(rest, digimon.value.prevLinks + digimon.value.nextLinks);
      }
    }

    /** A popped site that is not scraped goes through `get_evo_links`, is
        marked, and pushes the unscraped links of the record. */
    method FirstVisit(site: string, rest: seq<string>) returns (out: Outcome<seq<string>>)
      requires !db.State().Scraped(site)
      modifies this, db
      ensures Step(Now(), out) == Crawl.FirstVisit(old(Now()), env, cfg, site, rest)
    {
      var digimon := GetEvoLinks(site);
      if digimon.Fail? {
        return Fail(digimon.error);
      }
      out := Settle(site, rest, digimon.value);
    }

    /** `recurse_search` after `get_evo_links`: mark the site, then push the
        unscraped previous links and the unscraped next links. */
    method Settle(site: string, rest: seq<string>, digimon: Option<ScrapeDigimon>) returns (out: Outcome<seq<string>>)
      modifies db
      ensures Step(Now(), out) == Crawl.Settle(old(Now()), site, rest, digimon)
    {
      db.MarkScraped(site);
      var sites := rest;
      if digimon.Some? {
        sites := PushLinks(rest, digimon.value.prevLinks, digimon.value.nextLinks);
      }
      out := Ok(sites);
    }

    /** `recurse_search`'s two push loops over a record's links. */
    method PushLinks(rest: seq<string>, prev: seq<string>, nxt: seq<string>) returns (sites: seq<string>)
      ensures sites == Crawl.PushLinks(db.State(), rest, prev, nxt)
    {
      ghost var st := db.State();
      ghost var up, un := Unscraped(st, prev), Unscraped(st, nxt);
      sites := PushUnscraped(rest, prev);
      sites := PushUnscraped(sites, nxt);
      AppendAssoc(rest, up, un);
    }

    /** The crawls of `resume_scrape` and `refill_links`: one
        `recurse_search` per seed, in order. */
    method CrawlSeeds(seeds: seq<string>, fuel: nat) returns (out: Outcome<bool>)
      modifies this, db
      ensures Step(Now(), out) == CrawlAll(old(Now()), env, cfg, seeds, fuel, true)
    {
      var done := true;
      ghost var target := CrawlAll(Now(), env, cfg, seeds, fuel, true);
      for i := 0 to |seeds|
        invariant CrawlAll(Now(), env, cfg, seeds[i..], fuel, done) == target
      {
        assert seeds[i..][0] == seeds[i] && seeds[i..][1..] == seeds[i + 1..];
        var left := RecurseSearch(seeds[i], fuel);
        if left.Fail? {
          return Fail(left.error);
        }
        done := done && left.value == [];
      }
      out := Ok(done);
    }

    /** `resume_scrape`: one crawl per linked site that the store query
        finds unscraped, in the order the query lists them. */
    method ResumeScrape(fuel: nat) returns (seeds: seq<string>, out: Outcome<bool>)
      modifies this, db
      ensures ResumeSeeds(old(db.State()), seeds)
      ensures Step(Now(), out) == CrawlAll(old(Now()), env, cfg, seeds, fuel, true)
    {
      var pending := db.State().GetUnscrapedLinks();
      ghost var all := pending;
      seeds := [];
      while pending != {}
        invariant pending <= all
        invariant NoDup(seeds)
        invariant forall s :: s in seeds <==> s in all && s !in pending
        decreases |pending|
      {
        var s :| s in pending;
        seeds := seeds + [s];
        pending := pending - {s};
      }
      out := CrawlSeeds(seeds, fuel);
    }

    /** `refill_links`: one crawl per stored record with neither link
        column set. */
    method RefillLinks(fuel: nat) returns (seeds: seq<string>, out: Outcome<bool>)
      modifies this, db
      ensures seeds == old(db.State()).GetDigimonUrlsWithoutLinks()
      ensures Step(Now(), out) == CrawlAll(old(Now()), env, cfg, seeds, fuel, true)
    {
      seeds := db.State().GetDigimonUrlsWithoutLinks();
      out := CrawlSeeds(seeds, fuel);
    }
  }
}
