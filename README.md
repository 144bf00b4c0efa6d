# wikimon-evo-scrape in Dafny

wikimon-evo-scrape crawls the WikiMon wiki and rebuilds the Digimon evolution graph. Starting from one Digimon page, it keeps a stack of wiki paths. For each page it finds the "Evolves from" and "Evolves to" sections and keeps the evolution links that enough non-card-game citations support. It stores the Digimon and its links in an SQLite store and pushes the linked pages that are not scraped yet. A render script then draws the evolution line of one Digimon as a directed graph that never goes down the stages.

This project models that core and proves properties of the model:

| file | module | models |
|---|---|---|
| `common.dfy` | `Common` | `Option`, Python's `startswith`/`endswith`/`in`/`lower`/`lstrip` on strings, subsequences |
| `store.dfy` | `Store` | `wikimonscrape/digidb.py`: the `scraped` ledger, the `digimon` and `refs` tables, every query and mutator, the `DigiDB` class, `group_by_stage`, `digimon_from_namelist`, `stage_map`/`display_stage` |
| `web.dfy` | `Web` | the wiki as an oracle, the parsed page as an abstract document, the run configuration, and a log of page attempts and network requests |
| `refs.dfy` | `Refs` | `delayed_request`, `create_ref`, `is_cardgame_ref` and `get_ref_data` as functions from a world to a world and an outcome |
| `extract.dfy` | `Extract` | `extract_evolutions`: the heading-driven mode scan, citation counting, the two threshold rules (process.py and the older main.py) and the `h1` read |
| `crawl.dfy` | `Crawl` | `get_evo_links`, `recurse_search`, `resume_scrape`, `refill_links` as functions, and what a whole crawl promises |
| `scrape.dfy` | `Scrape` | the same operations as the program runs them: a `Crawler` class whose methods update the store and the log in place with the loops of the source. Each method is proved equal to the function above |
| `render.dfy` | `Render` | `recursive_add` of `render_line.py`: a `LineGraph` class holding the graph and the `seen` set, with the recursive walk as methods |

Effects are modelled in the functional layer as values. A `World` is the store together with a log of events. An operation maps a world to a `Step`, which holds the new world and an `Outcome`: a value, or the exception that aborts the run. Two kinds of event are logged: `Getting(site)` when the crawler starts work on a page it has not scraped, and `Fetch(href)` for every network request. A crawl is bounded by a `fuel` number of stack pops.

The main results:
- Running in a store with no row flagged `scraped = 0`, a crawl is disciplined (`Crawl.CrawlDisciplined`, `Crawl.CrawlAllDisciplined`):
  - it attempts no page twice;
  - it attempts only wiki paths that were not scraped when it started;
  - if it succeeds, every page it attempted ends up scraped.
- With the `scraped = 0` veto this breaks:
  - a vetoed page is attempted again on every visit (`Crawl.VetoedSiteAttemptedAgain`);
  - the resume query never offers that page (`Store.UnscrapedLinksMissVetoed`).
- Every link extracted from a page is a link of that page, found in the section of its direction (`Extract.ExtractEvolutions`); each direction is the threshold of the tallied candidates of that direction (`Extract.ExtractTallies`).
- A citation count is the number of citations the refs table records as non-card, under either of two conditions:
  - every citation's note anchor has an href, and every citation is already answered from the table or by `ASSUME_CARDS_FILLED` (`Refs.RefDataFromTable`);
  - no classification raises `AttributeError` and `ASSUME_CARDS_FILLED` is off (`Refs.RefDataCountsTable`).

  A swallowed `AttributeError`, or a miss answered `False` under `ASSUME_CARDS_FILLED`, makes the count lower than the table's.
- Under the same settings, main.py's older threshold keeps a subsequence of what process.py's rule keeps (`Extract.LegacySubsequence`).
- Once a citation target is classified, classifying it again makes no request and gives the same answer, in every later world whose refs table extends the one it was stored in (`Refs.ClassifiedStaysCached`). A page fetch consults only the page cache of the `digimon` table, not the refs table: `get_evo_links` fetches a classified target again when it attempts it as a page.
- In the rendered graph, the stage never falls along any path (`Render.GraphClimbs`).

process.py and main.py differ in three places:
- **Threshold rule.** main.py applies the minimum number of references to every candidate. process.py waives it when a direction has at most `LOW_EVO_COUNT` candidates. `Config.policy` chooses between the two.
- **The `h1` read.** Only process.py reads the page's `h1` when both directions come out empty. The model raises `AttributeError` there for a page without an `h1`, and only under process.py's policy.
- **Empty cached page.** See `Refs.DelayedRequest` under "## Left out".

## Model

| member | source | states |
|---|---|---|
| Store.DbState.DigimonBySite | wikimonscrape/digidb.py:174-191 | `None` exactly when no row has that url; otherwise the record of a row with that url: its id, its link columns with NULL read as `[]`, and no html |
| Store.DbState.DigimonHtml | wikimonscrape/digidb.py:268-283 | `None` exactly when no row with that url has non-NULL html; otherwise the html of such a row |
| Store.DbState.GetRef | wikimonscrape/digidb.py:218-244 | `(False, False)` exactly when no ref row has either key; otherwise `(True, is_card)` of a row with one of the keys |
| Store.DbState.ExistsDigimon | wikimonscrape/digidb.py:285-297 | `None` exactly when no row has that name; otherwise the id of a row with that name |
| Store.DbState.DigimonByName | wikimonscrape/digidb.py:107-121 | `None` exactly when no row has that name; otherwise `_raw_to_digimon` of a row with that name |
| Store.DbState.Scraped | wikimonscrape/digidb.py:155-168 | a site outside the ledger is scraped exactly when it has a row flagged 1; without flag-0 rows, a site is scraped exactly when it is in the ledger or has a row flagged 1 |
| Store.RawToDigimon | wikimonscrape/digidb.py:129-139 | keeps id, name, url, stage and attribute; a NULL link column reads as `[]`, any other as its stored list |
| Store.DbState.GetUnscrapedLinks | wikimonscrape/digidb.py:318-339 | a site is returned exactly when it occurs in some row's prev/next links, is not in the ledger, and no row with that url has flag 1 |
| Store.DbState.GetDigimonUrlsWithoutLinks | wikimonscrape/digidb.py:341-357 | a url is returned exactly when some row with that url has both link columns NULL |
| Store.DbState.MarkScraped | wikimonscrape/digidb.py:170-172 | adds the site to the ledger and changes nothing else |
| Store.DbState.CreateRef | wikimonscrape/digidb.py:193-216 | afterwards the url has a ref row; an existing row for that url leaves the store unchanged (insert on conflict do nothing); otherwise exactly one row is appended |
| Store.DbState.RegisterEvolutionLinks | wikimonscrape/digidb.py:246-266 | rows with another id are unchanged; rows with that id get exactly the two link lists; ledger and refs unchanged |
| Store.DbState.RegisterDigimon | wikimonscrape/digidb.py:299-316 | the result is the argument with an id, and the name resolves to that id afterwards; a known name returns its id and leaves the store unchanged; otherwise one row is appended |
| Store.NewRow | wikimonscrape/digidb.py:306-309 | the inserted row has no scraped flag and NULL link columns, keeps the html, and reads back as the record with the new id and no links |
| Store.ScrapedMonotone | wikimonscrape/digidb.py:155-168 | in a store without flag-0 rows that only grew, a scraped site stays scraped |
| Store.MarkScrapedEffective | wikimonscrape/digidb.py:155-172 | after marking, a site is scraped exactly when it has no flag-0 row or has a flag-1 row |
| Store.GetRefAfterCreate | wikimonscrape/digidb.py:193-244 | after `create_ref` on a missing key, `get_ref` finds it with the stored card flag |
| Store.CreateRefWriteOnce | wikimonscrape/digidb.py:193-216 | `create_ref` never changes an existing ref row |
| Store.RegisterDigimonValid | wikimonscrape/digidb.py:299-316 | registering keeps the store invariant: ids increasing, names unique, one ref row per url |
| Store.CreateRefValid | wikimonscrape/digidb.py:193-216 | creating a ref keeps the store invariant |
| Store.RegisterEvolutionLinksValid | wikimonscrape/digidb.py:246-266 | updating links keeps the store invariant |
| Store.RegisterEvolutionLinksOneRow | wikimonscrape/digidb.py:246-266 | in a valid store, exactly the row with that id changes, and only in its link columns |
| Store.UnscrapedLinksSound | wikimonscrape/digidb.py:318-339 | every site the resume query returns is linked and not scraped |
| Store.UnscrapedLinksComplete | wikimonscrape/digidb.py:318-339 | without flag-0 rows, every linked site that is not scraped is returned |
| Store.UnscrapedLinksMissVetoed | wikimonscrape/digidb.py:155-168 | a linked ledger site vetoed by a flag-0 row is not scraped, yet the resume query omits it |
| Store.StageMapDisplayable | wikimonscrape/digidb.py:11-29 | every value of `stage_map` is a key of `display_stage` |
| Common.LStrip | wikimonscrape/scrape/process.py:102 | a suffix of the input that does not start with the character, after a prefix made only of it |
| Store.FromNamelistOrder | wikimonscrape/digidb.py:141-150 | the records come back in name order, one per known name, and the known names form a subsequence of the names asked for |
| Store.FromNamelist | wikimonscrape/digidb.py:141-150 | at most one record per name asked for |
| Store.FromNamelistMembers | wikimonscrape/digidb.py:141-150 | a record comes back exactly when its name was asked for and `digimon_by_name` finds it, and it is what `digimon_by_name` returns |
| Store.StageGroup | wikimonscrape/digidb.py:363-368 | a group is no longer than the input and holds only records of the input with that stage |
| Store.StageGroupInOrder | wikimonscrape/digidb.py:363-368 | a group is a subsequence of the input that holds every record with that stage as often as the input does, and nothing else |
| Store.StageOrder | wikimonscrape/digidb.py:363-368 | the group keys occur once each, and are exactly the stages of the input |
| Store.StageGroups | wikimonscrape/digidb.py:363-368 | the dict has a key exactly for each stage of the input |
| Store.StageGroupsSnoc | wikimonscrape/digidb.py:365-366 | one more record appends it to its stage's group and leaves the other groups as they were |
| Store.GroupSizesTotal | wikimonscrape/digidb.py:363-368 | the group sizes sum to the input length |
| Store.GroupByStage | wikimonscrape/digidb.py:363-368 | the loop builds `StageGroups` of the input, with keys in first-seen order |
| Store.DigiDB.MarkScraped | wikimonscrape/digidb.py:170-172 | the store becomes `MarkScraped` of the old one; the site is then scraped unless vetoed |
| Store.DigiDB.CreateRef | wikimonscrape/digidb.py:193-216 | the store becomes `CreateRef` of the old one |
| Store.DigiDB.RegisterEvolutionLinks | wikimonscrape/digidb.py:246-266 | the store becomes `RegisterEvolutionLinks` of the old one |
| Store.DigiDB.RegisterDigimon | wikimonscrape/digidb.py:299-316 | the new store and the returned record are those of `RegisterDigimon` |
| Store.DigiDB.DigimonFromNamelist | wikimonscrape/digidb.py:141-150 | the loop returns `FromNamelist` of the names |
| Refs.DelayedRequest | wikimonscrape/scrape/process.py:28-37 | a non-empty cached page is returned with no request and no change; otherwise exactly one request is logged, and its response or exception is the outcome |
| Refs.CreateRef | wikimonscrape/scrape/process.py:40-48 | the log is that of `delayed_request`; a failed request fails the same way and changes no table; otherwise the result is the card category of the fetched page, and a ref row for the href with that page and flag is created |
| Refs.IsCardgameRef | wikimonscrape/scrape/process.py:51-62 | a ref hit under either key returns its flag with no effect; a miss with `ASSUME_CARDS_FILLED` returns `False` with no effect; otherwise it goes through `create_ref`, making at most one request |
| Refs.IsCardgameRefCreates | wikimonscrape/scrape/process.py:51-62 | a miss without `ASSUME_CARDS_FILLED` is exactly `create_ref` of the href |
| Refs.IsCardgameRefFails | wikimonscrape/scrape/process.py:28-62 | a classification fails only with the exception the wiki raised for that href |
| Refs.RefLookup | wikimonscrape/scrape/process.py:52-53 | found exactly when a ref row has the quoted href or the href itself; then the flag is that of such a row; a miss reads as not card |
| Refs.RefHitPersists | wikimonscrape/digidb.py:218-244 | a found ref keeps its answer while rows are only appended |
| Refs.ClassifyIdempotent | wikimonscrape/scrape/process.py:51-62 | classifying the same href twice makes no request and gives the same answer the second time |
| Refs.ClassifiedStaysCached | wikimonscrape/scrape/process.py:51-62 | once classified, an href is answered from the refs table in every later world whose refs extend the earlier ones |
| Refs.CiteMarkers | wikimonscrape/scrape/process.py:91-94 | no longer than the anchors; a marker occurs exactly when it is an anchor href that starts with `#cite` |
| Refs.CiteMarkersInOrder | wikimonscrape/scrape/process.py:91-94 | the markers are a subsequence of the anchor hrefs and hold every `#cite` href as often as the anchors do, and nothing else |
| Refs.NoteId | wikimonscrape/scrape/process.py:102 | the note id is the marker with its whole leading run of `#` removed, and does not itself start with `#` (as `Common.LStrip`) |
| Refs.RefStep | wikimonscrape/scrape/process.py:99-128 | a citation with no note, a `battle-spirits` note or a non-wiki note changes nothing; a note anchor without href aborts with `AttributeError`; otherwise the count rises by at most one, and `only card` stays true exactly when it does not rise |
| Refs.RefStepClassifies | wikimonscrape/scrape/process.py:99-128 | for a classifiable citation the world is the classifier's; a non-card answer adds one and clears `only card`; a card answer or an `AttributeError` leaves the tally as it was; any other exception aborts |
| Refs.RefLoop | wikimonscrape/scrape/process.py:96-128 | the non-card count rises by at most the number of classifiable citations; `only card` stays true exactly when the count is unchanged; the store only grows and the ledger is unchanged |
| Refs.UnclassifiedInert | wikimonscrape/scrape/process.py:99-121 | citations that cannot be classified leave the world and the tally untouched |
| Refs.RefData | wikimonscrape/scrape/process.py:65-130 | the total is the number of `#cite` markers; noncard ≤ classifiable ≤ total; `only card` holds exactly when noncard is 0 |
| Refs.RefLoopFromTable | wikimonscrape/scrape/process.py:96-128 | when every citation is answered without a request, the loop changes nothing and adds exactly the number of citations recorded as non-card |
| Refs.RefDataFromTable | wikimonscrape/scrape/process.py:65-130 | when every citation is answered without a request, `get_ref_data` changes nothing and returns the number of citations recorded as non-card, `only card` exactly when that number is 0, and the number of markers |
| Refs.RefLoopCountsTable | wikimonscrape/scrape/process.py:96-128 | when classification raises no `AttributeError` and cards are not assumed filled, the count added is the number of citations the final refs table records as non-card, and every classifiable target then has a ref row |
| Refs.RefDataCountsTable | wikimonscrape/scrape/process.py:65-130 | under the same conditions, `noncard` is the number of citations the final refs table records as non-card, and every classifiable target has a ref row |
| Extract.Scan | wikimonscrape/scrape/process.py:159-183 | at most one candidate per item; each candidate is a list link under an "Evolves from"/"Evolves to" heading, not a card-game link |
| Extract.ScanAppend | wikimonscrape/scrape/process.py:159-177 | scanning two item lists in a row equals scanning the first, then the second from the mode the first ends in |
| Extract.HeadingEffect | wikimonscrape/scrape/process.py:163-173 | "evolves from" switches to prev, "evolves to" to next, another heading after next stops the scan, and any other heading changes nothing |
| Extract.NextMode | wikimonscrape/scrape/process.py:163-173 | a link leaves the mode as it is, so only a heading changes it (what each heading does is `Extract.HeadingEffect`) |
| Extract.WhateverSilent | wikimonscrape/scrape/process.py:159-177 | a page without an evolution heading yields no candidate |
| Extract.CollectOneExtends | wikimonscrape/scrape/process.py:179-189 | one candidate appends at most one entry, in its own direction, and only when it has a non-card citation or the card filter is off |
| Extract.CollectOne | wikimonscrape/scrape/process.py:179-189 | the world is that of `get_ref_data` on the candidate, whose failure aborts; otherwise a card-only candidate under the card filter or one without a direction changes no list, and any other is appended, with its non-card count, to its direction's list |
| Extract.CollectOneEntry | wikimonscrape/scrape/process.py:179-189 | the same as one entry per direction: nothing, or the candidate with its count in its own direction |
| Extract.Tallies | wikimonscrape/scrape/process.py:159-182 | one tally per candidate; the store only grows, the ledger and the page attempts are unchanged |
| Extract.TalliesEach | wikimonscrape/scrape/process.py:159-182 | each tally's total is its candidate's number of `#cite` markers, and `only card` holds exactly when its non-card count is 0 |
| Extract.Placed | wikimonscrape/scrape/process.py:183-189 | entries only for hrefs of candidates of that direction; under the card filter each entry has a non-card citation |
| Extract.CollectTallies | wikimonscrape/scrape/process.py:159-189 | the loop has the requests and writes of tallying every candidate and fails exactly when that does; otherwise each list receives, in order, one entry per candidate of its direction that is not dropped as card-only |
| Extract.Accepts | wikimonscrape/scrape/process.py:191-197 | a candidate with at least `MIN_REFERENCES` non-card citations is always accepted; under main.py's rule only such candidates are |
| Extract.Kept | wikimonscrape/scrape/process.py:191-197 | no longer than the candidates (the filter itself is `Extract.KeptFilters`) |
| Extract.Select | wikimonscrape/scrape/process.py:191-197 | no longer than the candidates (which hrefs it selects is `Extract.SelectSound` and `Extract.SelectAccepts`) |
| Extract.Collect | wikimonscrape/scrape/process.py:159-189 | the store only grows, the ledger and the page attempts are unchanged |
| Extract.KeptFilters | wikimonscrape/scrape/process.py:191-197 | the kept candidates are a subsequence of the input holding every accepted candidate as often as the input does, and nothing else |
| Extract.SelectSound | wikimonscrape/scrape/process.py:191-197 | every selected href belongs to an accepted candidate, and every accepted candidate's href is selected |
| Extract.SelectAccepts | wikimonscrape/scrape/process.py:191-197 | a candidate is kept exactly when the rule accepts it; the selected hrefs are a subsequence of all candidate hrefs |
| Extract.LowCountKeepsAll | wikimonscrape/scrape/process.py:191-197 | at most `LOW_EVO_COUNT` candidates are all kept, whatever their counts |
| Extract.LegacyKeptSubSeq | main.py:200-201 | main.py's rule keeps a subsequence of what process.py's rule keeps |
| Extract.CandidatesArePageLinks | wikimonscrape/scrape/process.py:159-189 | every candidate href is the href of a list link of the page |
| Extract.ExtractEvolutions | wikimonscrape/scrape/process.py:133-204 | the store only grows, the ledger and the page attempts are unchanged; every returned previous href is a candidate seen under "Evolves from", every next href one seen under "Evolves to", and each is a list link of the page |
| Extract.ExtractTallies | wikimonscrape/scrape/process.py:133-204 | the extraction has the effects of tallying every candidate and fails when that does; otherwise each direction is `Select` of the entries `Placed` gives it, and process.py fails on the `h1` read exactly when both are empty on a page without `h1` |
| Extract.LegacySubsequence | main.py:165-209 | with the same settings, main.py's extraction has the same effects and fails only where process.py's does; on success each direction is a subsequence of process.py's |
| Extract.CollectCardFilter | wikimonscrape/scrape/process.py:184-186 | ignoring card-only links keeps exactly the entries with a non-card citation |
| Extract.MinRefsDropsCardOnly | main.py:196-201 | with a minimum of at least 1, main.py's rule already rejects card-only candidates |
| Extract.CardFilterImplied | main.py:192-201 | so in main.py `IGNORE_CARD_ONLY_REFS` does not change the extraction |
| Extract.KeptIgnoresCount | main.py:200-201 | main.py's rule does not depend on how many candidates a direction has |
| Extract.KeptSameRule | wikimonscrape/scrape/process.py:191-197 | the kept candidates depend only on the minimum and the policy |
| Crawl.StripTitle | wikimonscrape/scrape/process.py:231-235 | the raw title is the title or the title plus one `/`, and ends with `/` exactly in the second case |
| Crawl.Fresh | wikimonscrape/scrape/process.py:237-245 | the record has no id, the title as name, the site as url, the page as html and no links |
| Crawl.FreshCachesPage | wikimonscrape/scrape/process.py:237-247 | registering the fresh record of a new name and site caches its page for `delayed_request` |
| Crawl.ScrapePage | wikimonscrape/scrape/process.py:226-257 | a non-Digimon page returns `None` with no effect, one without a title fails with `AttributeError`; otherwise the record is the registered fresh record with the stripped title, its links are exactly what `extract_evolutions` returns in the store after registering, they are stored for its id, and they are links of the page |
| Crawl.EvoLinks | wikimonscrape/scrape/process.py:212-259 | a non-wiki path returns `None`; a scraped site returns its stored record with no effect; otherwise exactly that site is logged as attempted, and on success the record is stored under its name with its links |
| Crawl.RegisteredLinksStored | wikimonscrape/scrape/process.py:208-209 | after `register_evo_links` the row of the record's id holds the two lists |
| Crawl.Unscraped | wikimonscrape/scrape/process.py:283-289 | no longer than the links; a site occurs exactly when it is one of the links and not scraped |
| Crawl.UnscrapedInOrder | wikimonscrape/scrape/process.py:283-289 | the result is a subsequence of the links holding every unscraped link as often as the links do, and nothing else |
| Crawl.UnscrapedAppend | wikimonscrape/scrape/process.py:283-289 | filtering two lists in a row equals filtering their concatenation |
| Crawl.Visit | wikimonscrape/scrape/process.py:264-289 | pops the top site; logs an attempt exactly when it is an unscraped wiki path; marks it when it was unscraped and the visit succeeds; a scraped site changes nothing and pushes its stored record's unscraped links; an unscraped one pushes the unscraped links of the record `get_evo_links` returns |
| Crawl.Revisit | wikimonscrape/scrape/process.py:266-274 | changes nothing, keeps the rest of the stack, and pushes exactly the stored record's links that are not scraped, as `PushLinks` of them; nothing without a stored record |
| Crawl.FirstVisit | wikimonscrape/scrape/process.py:275-289 | logs the site if it is a wiki path; fails as `get_evo_links` fails; otherwise marks the site and pushes `PushLinks` of the record it returned, nothing without a record |
| Crawl.FirstVisitPushesStored | wikimonscrape/scrape/process.py:275-289 | the record pushed is that of the visited site, its links are stored for its id, and the stack grows by `PushLinks` of exactly those links |
| Crawl.Settle | wikimonscrape/scrape/process.py:277-289 | marks the site, leaves rows, refs and log alone; without a record the stack is unchanged, with one it is `PushLinks` of the record's links |
| Crawl.PushLinks | wikimonscrape/scrape/process.py:283-289 | extends the stack, by at most the number of links, with unscraped links of the record only |
| Crawl.PushLinksPushed | wikimonscrape/scrape/process.py:283-289 | the pushed sites are exactly the unscraped previous and next links, in order, each as often as it occurs in them |
| Crawl.VisitDisciplined | wikimonscrape/scrape/process.py:264-289 | one visit is disciplined: at most one fresh attempt, which is marked on success |
| Crawl.DisciplinedTrans | wikimonscrape/scrape/process.py:264-289 | a disciplined run followed by another disciplined run is disciplined |
| Crawl.CrawlDisciplined | wikimonscrape/scrape/process.py:262-289 | without flag-0 rows, a crawl only grows the store, attempts each page at most once and only wiki paths unscraped at its start, and on success leaves each attempted page scraped |
| Crawl.Crawl | wikimonscrape/scrape/process.py:262-289 | the log and the store only grow |
| Crawl.VetoedSiteAttemptedAgain | wikimonscrape/digidb.py:155-168 | a ledger site vetoed by a flag-0 row is attempted again when visited |
| Crawl.CrawlAll | wikimonscrape/scrape/process.py:292-305 | the run reports that it finished only if `done` held on entry |
| Crawl.CrawlAllAppend | wikimonscrape/scrape/process.py:296-305 | a run over `a + b` is the run over `a` followed, on success, by the run over `b` from where it ended |
| Crawl.CrawlAllEachSeedFinished | wikimonscrape/scrape/process.py:292-305 | a run over all seeds reports that it finished only when every seed's crawl, from the world the earlier seeds left, ended with an empty stack |
| Crawl.CrawlAllDisciplined | wikimonscrape/scrape/process.py:292-305 | the same discipline across all seeds of `resume_scrape`/`refill_links` |
| Crawl.StandStillDisciplined | wikimonscrape/scrape/process.py:264 | a crawl that pops nothing is disciplined |
| Crawl.ThenDisciplined | wikimonscrape/scrape/process.py:264-289 | a disciplined step followed, on success, by a disciplined rest is disciplined |
| Crawl.ResumeSeedsUnscraped | wikimonscrape/scrape/process.py:292-300 | the seeds of `resume_scrape` are linked and unscraped; without flag-0 rows they are all such sites |
| Scrape.Crawler.DelayedRequest | wikimonscrape/scrape/process.py:28-37 | the log and outcome after the call are those of `Refs.DelayedRequest` |
| Scrape.Crawler.CreateRef | wikimonscrape/scrape/process.py:40-48 | the store, log and outcome are those of `Refs.CreateRef` |
| Scrape.Crawler.IsCardgameRef | wikimonscrape/scrape/process.py:51-62 | equal to `Refs.IsCardgameRef` |
| Scrape.Crawler.GetRefData | wikimonscrape/scrape/process.py:65-130 | the counting loop equals `Refs.RefData` |
| Scrape.Crawler.CountCitation | wikimonscrape/scrape/process.py:99-128 | one loop body equals `Refs.RefStep` |
| Scrape.Crawler.ExtractEvolutions | wikimonscrape/scrape/process.py:133-204 | equal to `Extract.ExtractEvolutions` |
| Scrape.Crawler.CollectCandidates | wikimonscrape/scrape/process.py:155-189 | the mode loop equals `Extract.Collect` over `Extract.Scan` of the page |
| Scrape.Crawler.KeepCandidate | wikimonscrape/scrape/process.py:179-189 | one candidate's loop body equals `Extract.CollectOne` |
| Scrape.Crawler.GetEvoLinks | wikimonscrape/scrape/process.py:212-259 | equal to `Crawl.EvoLinks` |
| Scrape.Crawler.PushUnscraped | wikimonscrape/scrape/process.py:283-285 | appends `Crawl.Unscraped` of the links to the stack |
| Scrape.Crawler.RecurseSearch | wikimonscrape/scrape/process.py:262-289 | the stack loop equals `Crawl.Crawl` from the start site |
| Scrape.Crawler.VisitTop | wikimonscrape/scrape/process.py:265-289 | one loop iteration equals `Crawl.Visit` |
| Scrape.Crawler.Revisit | wikimonscrape/scrape/process.py:266-274 | equal to `Crawl.Revisit` |
| Scrape.Crawler.FirstVisit | wikimonscrape/scrape/process.py:275-289 | equal to `Crawl.FirstVisit` |
| Scrape.Crawler.Settle | wikimonscrape/scrape/process.py:277-289 | equal to `Crawl.Settle` |
| Scrape.Crawler.PushLinks | wikimonscrape/scrape/process.py:283-289 | equal to `Crawl.PushLinks` |
| Scrape.Crawler.CrawlSeeds | wikimonscrape/scrape/process.py:296-305 | the seed loop equals `Crawl.CrawlAll` |
| Scrape.Crawler.ResumeScrape | wikimonscrape/scrape/process.py:292-300 | the seeds satisfy `Crawl.ResumeSeeds` for the store at the start, and the crawl equals `Crawl.CrawlAll` over them |
| Scrape.Crawler.RefillLinks | wikimonscrape/scrape/process.py:303-305 | crawls from the urls without links, as `Crawl.CrawlAll` |
| Render.Rank | render_line.py:42 | `stage or -1`: a missing stage or stage 0 ranks -1, any other stage ranks as itself |
| Render.LineGraph.RecursiveAdd | render_line.py:27-56 | a seen id changes nothing. Otherwise the id becomes the next node, under its name. Nodes are added once each. A walk without `do_previous` adds only forward edges, and one without `do_next` only backward edges. Every guarded link of the id becomes an edge, even when the neighbour was already seen |
| Render.LineGraph.Walk | render_line.py:31-56 | the same for an id not yet seen |
| Render.LineGraph.AddNode | render_line.py:33-34 | appends the node under its name and adds the id to `seen` |
| Render.LineGraph.AddPrevious | render_line.py:38-46 | adds only backward edges, and adds `prev -> item` for every previous link whose rank is not above the item's |
| Render.LineGraph.AddNext | render_line.py:48-56 | adds only forward edges, and adds `item -> next` for every next link whose rank is not below the item's |
| Render.RenderLine | render_line.py:59 | the root is the first node, and all its guarded links in both directions are edges |
| Render.PathClimbs | render_line.py:42-54 | along a path of such edges the rank never falls |
| Render.GraphClimbs | render_line.py:42-54 | in the walk's graph, the rank never falls along a path |

## Left out

- HTTP, the 1.5 s sleep, BeautifulSoup/lxml parsing, SQL text, JSON (de)serialisation, commits, argparse and all `print` logging. The wiki is an oracle from href to response. The parser is an abstract function from page text to a `Doc`. `quote` is an abstract function.
- Web.Item: a selected list link without `href` is not modelled; every `Link` has a string href. The source would keep such a link as `None`: it tallies it, stores it as JSON `null` and pushes it, because `scraped(None)` finds no row. The next pop then raises `AttributeError` at `site.startswith("/")` (process.py:213), which ends the run.
- The CSS selection of citation notes. For each citation id, a page gives the href of the first reference-text anchor across all references areas (`Doc.notes`). The walk from a link up to its enclosing `li` is folded into `Item.anchors`.
- Refs.DelayedRequest: follows process.py, where an empty cached page counts as a miss and is fetched again. main.py:28-31 would return the empty page instead.
- The `sqlite3.OperationalError` handler of `resume_scrape` is not modelled. The model has no SQL engine that could raise it.
- process.py's top-level `except Exception` (process.py:339-340) and main.py's `try`/`finally` around `refill_links` (main.py:375-380): process.py prints the exception, and main.py lets it propagate after closing the connection. Either way, any exception other than the `AttributeError` swallowed per citation ends the run, which the model records as `Fail`.
- StageGroup: its own contract states membership only; order and multiplicity are proved in `Store.StageGroupInOrder`.
- FromNamelist: its own contract bounds the length only; which records come back, and in which order, is `Store.FromNamelistMembers` and `Store.FromNamelistOrder`.
- Kept, Select: their own contracts bound the length only; what they keep is proved in `Extract.KeptFilters`, `Extract.SelectSound` and `Extract.SelectAccepts`.
- CiteMarkers: its own contract states membership only; order and multiplicity are proved in `Refs.CiteMarkersInOrder`.
- RefStep, RefLoop, RefData: their own contracts bound the count. What it counts is proved in `Refs.RefStepClassifies`, `Refs.RefLoopFromTable`, `Refs.RefDataFromTable`, `Refs.RefLoopCountsTable` and `Refs.RefDataCountsTable`.
- RefLoopCountsTable, RefDataCountsTable: hold when no classification raises `AttributeError` and `ASSUME_CARDS_FILLED` is off. An `AttributeError` skips that citation (`Refs.RefStepClassifies`), so the count can then be lower than the table's.
- Collect, Tallies: their own contracts state effects and lengths only; what each list receives is proved in `Extract.CollectTallies`, `Extract.TalliesEach` and `Extract.ExtractTallies`.
- Unscraped: its own contract states membership only; order and multiplicity are proved in `Crawl.UnscrapedInOrder`.
- PushLinks: its own contract states soundness only; that every unscraped link is pushed, in order, is `Crawl.PushLinksPushed`.
- CrawlAll: its own contract ties the result to `done` only; the per-seed claim is `Crawl.CrawlAllEachSeedFinished`.
- Crawl.Crawl: termination is not proved. Each `recurse_search` gets `fuel` stack pops. With a flag-0 row the source can loop forever (`Crawl.VetoedSiteAttemptedAgain`), so no bound exists in general. Its own contract states growth only; what a crawl promises is `Crawl.CrawlDisciplined`.
- Crawl.CrawlDisciplined, Crawl.CrawlAllDisciplined: the discipline is proved only for stores without rows flagged `scraped = 0`. With such rows the source itself re-attempts pages.
- `str.lower` is ASCII-only.
- SQLite's rowid allocation is modelled as one more than the largest id in use.
- main.py's `exists_digimon`, `register_digimon`, `get_ref`, `scraped`, `mark_scraped`, `digimon_by_site` and `register_evo_links` are the digidb.py operations and share their model. Its `register_evolutions` (main.py:66-71) is never called and is not modelled.
- Render.LineGraph.RecursiveAdd: does not state which ids the walk reaches, only what it adds. The name lookup of the root (render_line.py:15-17), a crash on a missing root, and graphml output are not modelled.
- Render.Closed: the source reads only the links of the rows the walk reaches, in the direction it walks. A linked id without a row crashes its `print` only when such a link is followed. The model requires every linked id of every row to have a row, including rows the walk never reaches and directions it never walks. Tables where a dangling id would be harmless are therefore excluded.
- wikimonscrape/scrape/other_meta.py, wikimonscrape/scrape/fetch_cards_list.py, to_graphml.py and wikimonscrape/misc/sort_by_stage.py are not part of this model.
