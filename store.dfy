/** The scraper's persistent store (wikimonscrape/digidb.py), modelled as
    three tables held in memory: the `scraped` ledger, the `digimon` table
    and the `refs` table. SQL text, JSON encoding of the link columns and
    commits are not modelled. None of the queries has an ORDER BY, so
    which matching row `fetchone` returns is up to SQLite; the model
    chooses the first in the order of the sequences below, and its
    contracts only say "a matching row". */
module Store {
  import opened Common

  /** One row of the `digimon` table. `None` stands for SQL NULL. The
      `previousIds`/`nextIds`/`stage`/`attribute` columns are written by
      tooling outside the crawler and only read here. */
  datatype Row = Row(
    id: int,
    name: string,
    url: string,
    html: Option<string>,
    scraped: Option<bool>,
    prevLinks: Option<seq<string>>,
    nextLinks: Option<seq<string>>,
    previousIds: Option<seq<int>>,
    nextIds: Option<seq<int>>,
    stage: Option<int>,
    attribute: Option<string>)

  /** One row of the `refs` table: a classified citation target. */
  datatype RefRow = RefRow(url: string, html: string, isCard: bool)

  /** The `ScrapeDigimon` record the crawler passes around. */
  datatype ScrapeDigimon = ScrapeDigimon(
    id: Option<int>,
    name: string,
    url: string,
    scraped: Option<bool>,
    prevLinks: seq<string>,
    nextLinks: seq<string>,
    html: Option<string>)

  /** The `Digimon` dataclass read back by the report tools. */
  datatype Digimon = Digimon(
    id: int,
    name: string,
    previous: seq<int>,
    next: seq<int>,
    stage: Option<int>,
    attribute: Option<string>,
    url: string)

  /** A NULL or empty link column reads as the empty list. */
  function OrEmpty<T>(column: Option<seq<T>>): seq<T>
  {
    match column
    case None => []
    case Some(s) => s
  }

  /** Index of the first row whose url is `site`, or `|rows|` when none is. */
  function SiteIndex(rows: seq<Row>, site: string): (k: nat)
    ensures k <= |rows|
    ensures forall i :: 0 <= i < k ==> rows[i].url != site
    ensures k < |rows| ==> rows[k].url == site
  {
    if rows == [] then 0
    else if rows[0].url == site then 0
    else 1 + SiteIndex(rows[1..], site)
  }

  /** Index of the first row named `name`, or `|rows|` when none is. */
  function NameIndex(rows: seq<Row>, name: string): (k: nat)
    ensures k <= |rows|
    ensures forall i :: 0 <= i < k ==> rows[i].name != name
    ensures k < |rows| ==> rows[k].name == name
  {
    if rows == [] then 0
    else if rows[0].name == name then 0
    else 1 + NameIndex(rows[1..], name)
  }

  /** Index of the first row for `url` whose html column is not NULL. */
  function HtmlIndex(rows: seq<Row>, url: string): (k: nat)
    ensures k <= |rows|
    ensures forall i :: 0 <= i < k ==> !(rows[i].url == url && rows[i].html.Some?)
    ensures k < |rows| ==> rows[k].url == url && rows[k].html.Some?
  {
    if rows == [] then 0
    else if rows[0].url == url && rows[0].html.Some? then 0
    else 1 + HtmlIndex(rows[1..], url)
  }

  /** Index of the first ref row whose url is `h1` or `h2`. */
  function RefIndex(refs: seq<RefRow>, h1: string, h2: string): (k: nat)
    ensures k <= |refs|
    ensures forall i :: 0 <= i < k ==> refs[i].url != h1 && refs[i].url != h2
    ensures k < |refs| ==> refs[k].url == h1 || refs[k].url == h2
  {
    if refs == [] then 0
    else if refs[0].url == h1 || refs[0].url == h2 then 0
    else 1 + RefIndex(refs[1..], h1, h2)
  }

  /** The row as `_raw_to_digimon` reads it. */
  function RawToDigimon(row: Row): (d: Digimon)
    ensures d.id == row.id && d.name == row.name && d.url == row.url
    ensures row.previousIds.None? ==> d.previous == []
    ensures row.nextIds.None? ==> d.next == []
    ensures row.previousIds.Some? ==> d.previous == row.previousIds.value
    ensures row.nextIds.Some? ==> d.next == row.nextIds.value
    ensures d.stage == row.stage && d.attribute == row.attribute
  {
    Digimon(row.id, row.name, OrEmpty(row.previousIds), OrEmpty(row.nextIds),
            row.stage, row.attribute, row.url)
  }

  /** The row as `digimon_by_site` reads it. */
  function AsScrapeDigimon(row: Row): ScrapeDigimon
  {
    ScrapeDigimon(Some(row.id), row.name, row.url, row.scraped,
                  OrEmpty(row.prevLinks), OrEmpty(row.nextLinks), None)
  }

  /** The row `register_digimon` inserts: name, url and html; every other
      column NULL; the id is the one SQLite assigns. Read back by
      `digimon_by_site` it is the record with that id, no flag, no links
      and no page. */
  function NewRow(id: int, d: ScrapeDigimon): (r: Row)
    ensures r.scraped.None? && r.prevLinks.None? && r.nextLinks.None?
    ensures r.html == d.html
    ensures AsScrapeDigimon(r) == d.(id := Some(id), scraped := None, prevLinks := [], nextLinks := [], html := None)
  {
    Row(id, d.name, d.url, d.html, None, None, None, None, None, None, None)
  }

  /** Both link lists of a row, previous first. */
  function RowLinks(row: Row): seq<string>
  {
    OrEmpty(row.prevLinks) + OrEmpty(row.nextLinks)
  }

  /** Urls of the rows whose two link columns are NULL, in row order. */
  function Unlinked(rows: seq<Row>): (r: seq<string>)
    ensures |r| <= |rows|
    ensures forall u :: u in r <==>
      exists i :: 0 <= i < |rows| && rows[i].url == u && rows[i].prevLinks.None? && rows[i].nextLinks.None?
  {
    if rows == [] then []
    else
      var rest := Unlinked(rows[1..]);
      assert forall i :: 1 <= i < |rows| ==> rows[i] == rows[1..][i - 1];
      if rows[0].prevLinks.None? && rows[0].nextLinks.None? then [rows[0].url] + rest else rest
  }

  /** The whole store. */
  datatype DbState = DbState(ledger: set<string>, rows: seq<Row>, refs: seq<RefRow>) {

    /** What SQLite and `register_digimon` keep true: ids are assigned in
        increasing order, no two rows share a name, and the refs table has
        at most one row per url. */
    ghost predicate Valid()
    {
      && (forall i, j :: 0 <= i < j < |rows| ==> rows[i].id < rows[j].id)
      && (forall i, j :: 0 <= i < j < |rows| ==> rows[i].name != rows[j].name)
      && (forall i, j :: 0 <= i < j < |refs| ==> refs[i].url != refs[j].url)
    }

    /** No row carries `scraped = 0`. The crawler never writes the column,
        so a store it created keeps this. */
    predicate NoFalseFlag()
    {
      forall i :: 0 <= i < |rows| ==> rows[i].scraped != Some(false)
    }

    /** Some row for `site` has `scraped = flag`. */
    predicate HasFlag(site: string, flag: bool)
    {
      exists i :: 0 <= i < |rows| && rows[i].url == site && rows[i].scraped == Some(flag)
    }

    /** `DigiDB.scraped`: the site is in the ledger and not vetoed by a row
        flagged 0, or some row for it is flagged 1. */
    predicate Scraped(site: string)
      ensures NoFalseFlag() ==> (Scraped(site) <==> site in ledger || HasFlag(site, true))
      ensures site !in ledger ==> (Scraped(site) <==> HasFlag(site, true))
    {
      (site in ledger && !HasFlag(site, false)) || HasFlag(site, true)
    }

    /** `DigiDB.digimon_by_site`. */
    function DigimonBySite(site: string): (r: Option<ScrapeDigimon>)
      ensures r.None? <==> forall i :: 0 <= i < |rows| ==> rows[i].url != site
      ensures r.Some? ==> exists i :: 0 <= i < |rows| && rows[i].url == site && r.value.id == Some(rows[i].id)
                                      && r.value.prevLinks == OrEmpty(rows[i].prevLinks)
                                      && r.value.nextLinks == OrEmpty(rows[i].nextLinks)
      ensures r.Some? ==> r.value.url == site && r.value.html.None?
    {
      var k := SiteIndex(rows, site);
      if k == |rows| then None else Some(AsScrapeDigimon(rows[k]))
    }

    /** `DigiDB.get_digimon_html`: the cached page of a site, if any row
        for it has one. */
    function DigimonHtml(url: string): (r: Option<string>)
      ensures r.None? <==> forall i :: 0 <= i < |rows| ==> !(rows[i].url == url && rows[i].html.Some?)
      ensures r.Some? ==> exists i :: 0 <= i < |rows| && rows[i].url == url && rows[i].html == r
    {
      var k := HtmlIndex(rows, url);
      if k == |rows| then None else rows[k].html
    }

    /** `DigiDB.get_ref(h1, h2)`: (found, is_card) of the first ref row
        stored under either key. */
    function GetRef(h1: string, h2: string): (r: (bool, bool))
      ensures !r.0 <==> forall i :: 0 <= i < |refs| ==> refs[i].url != h1 && refs[i].url != h2
      ensures !r.0 ==> !r.1
      ensures r.0 ==> exists i :: 0 <= i < |refs| && (refs[i].url == h1 || refs[i].url == h2) && refs[i].isCard == r.1
    {
      var k := RefIndex(refs, h1, h2);
      if k == |refs| then (false, false) else (true, refs[k].isCard)
    }

    /** Some ref row is stored under `url`. */
    predicate HasRef(url: string)
    {
      exists i :: 0 <= i < |refs| && refs[i].url == url
    }

    /** `DigiDB.exists_digimon`: the id of the first row with that name. */
    function ExistsDigimon(name: string): (r: Option<int>)
      ensures r.None? <==> forall i :: 0 <= i < |rows| ==> rows[i].name != name
      ensures r.Some? ==> exists i :: 0 <= i < |rows| && rows[i].name == name && rows[i].id == r.value
    {
      var k := NameIndex(rows, name);
      if k == |rows| then None else Some(rows[k].id)
    }

    /** `DigiDB.digimon_by_name`. */
    function DigimonByName(name: string): (r: Option<Digimon>)
      ensures r.None? <==> forall i :: 0 <= i < |rows| ==> rows[i].name != name
      ensures r.Some? ==> r.value.name == name
      ensures r.Some? ==> exists i :: 0 <= i < |rows| && rows[i].name == name && r.value == RawToDigimon(rows[i])
    {
      var k := NameIndex(rows, name);
      if k == |rows| then None else Some(RawToDigimon(rows[k]))
    }

    /** The rowid SQLite gives the next inserted row: one more than the
        largest, which is the last one; 1 in an empty table. */
    function NextRowId(): int
    {
      if rows == [] then 1 else rows[|rows| - 1].id + 1
    }

    /** Every site that occurs in some row's prev/next links. */
    function LinkSites(): set<string>
    {
      set i, j | 0 <= i < |rows| && 0 <= j < |RowLinks(rows[i])| :: RowLinks(rows[i])[j]
    }

    /** `DigiDB.get_unscraped_links`: the distinct linked sites, minus the
        ledger and minus the urls of rows flagged 1. The query has no
        order, so the result is a set. */
    function GetUnscrapedLinks(): (r: set<string>)
      ensures forall s :: s in r <==> s in LinkSites() && s !in ledger && !HasFlag(s, true)
    {
      set s | s in LinkSites() && s !in ledger && !HasFlag(s, true)
    }

    /** `DigiDB.get_digimon_urls_without_links`. */
    function GetDigimonUrlsWithoutLinks(): (r: seq<string>)
      ensures forall u :: u in r <==>
        exists i :: 0 <= i < |rows| && rows[i].url == u && rows[i].prevLinks.None? && rows[i].nextLinks.None?
    {
      Unlinked(rows)
    }

    /** Everything a later state still has of this one: the ledger and the
        refs table only grow, existing rows keep their identity, url, page
        and flag, and rows added later carry no flag. */
    ghost predicate Grows(st: DbState)
    {
      && ledger <= st.ledger
      && |rows| <= |st.rows|
      && (forall i :: 0 <= i < |rows| ==>
            && st.rows[i].id == rows[i].id && st.rows[i].name == rows[i].name
            && st.rows[i].url == rows[i].url && st.rows[i].html == rows[i].html
            && st.rows[i].scraped == rows[i].scraped)
      && (forall i :: |rows| <= i < |st.rows| ==> st.rows[i].scraped.None?)
      && refs <= st.refs
    }

    /** `DigiDB.mark_scraped`. */
    function MarkScraped(site: string): (st: DbState)
      ensures Grows(st) && site in st.ledger
      ensures st.ledger == ledger + {site} && st.rows == rows && st.refs == refs
    {
      this.(ledger := ledger + {site})
    }

    /** `DigiDB.create_ref`: insert, or nothing when a row with that url
        already exists. */
    function CreateRef(href: string, html: string, isCard: bool): (st: DbState)
      ensures Grows(st) && st.ledger == ledger && st.rows == rows
      ensures st.HasRef(href)
      ensures HasRef(href) ==> st == this
      ensures !HasRef(href) ==> st.refs == refs + [RefRow(href, html, isCard)]
    {
      if HasRef(href) then this
      else
        var st := this.(refs := refs + [RefRow(href, html, isCard)]);
        assert st.refs[|refs|].url == href;
        st
    }

    /** `DigiDB.register_evolution_links`: overwrite both link columns of
        every row with that id (at most one, by `Valid`). */
    function RegisterEvolutionLinks(prev: seq<string>, nxt: seq<string>, id: int): (st: DbState)
      ensures Grows(st) && st.ledger == ledger && st.refs == refs && |st.rows| == |rows|
      ensures forall i :: 0 <= i < |rows| && rows[i].id != id ==> st.rows[i] == rows[i]
      ensures forall i :: 0 <= i < |rows| && rows[i].id == id ==>
                st.rows[i] == rows[i].(prevLinks := Some(prev), nextLinks := Some(nxt))
    {
      this.(rows := seq(|rows|, i requires 0 <= i < |rows| =>
        if rows[i].id == id then rows[i].(prevLinks := Some(prev), nextLinks := Some(nxt)) else rows[i]))
    }

    /** `DigiDB.register_digimon`: a copy of `d` carrying the id of the row
        with `d`'s name, inserting that row first when there is none. */
    function RegisterDigimon(d: ScrapeDigimon): (r: (DbState, ScrapeDigimon))
      ensures Grows(r.0) && r.0.ledger == ledger && r.0.refs == refs
      ensures r.1.id.Some? && r.1 == d.(id := r.1.id)
      ensures r.0.ExistsDigimon(d.name) == r.1.id
      ensures ExistsDigimon(d.name).Some? ==> r.0 == this && r.1.id == ExistsDigimon(d.name)
      ensures ExistsDigimon(d.name).None? ==>
                r.0.rows == rows + [NewRow(NextRowId(), d)] && r.1.id == Some(NextRowId())
    {
      match ExistsDigimon(d.name)
      case Some(id) => (this, d.(id := Some(id)))
      case None =>
        var st := this.(rows := rows + [NewRow(NextRowId(), d)]);
        assert st.rows[|rows|].name == d.name;
        assert NameIndex(st.rows, d.name) == |rows|;
        (st, d.(id := Some(NextRowId())))
    }
  }

  /** A name the store knows keeps its id as the store grows. */
  lemma ExistsDigimonGrows(st: DbState, st': DbState, name: string)
    requires st.Grows(st') && st.ExistsDigimon(name).Some?
    ensures st'.ExistsDigimon(name) == st.ExistsDigimon(name)
  {
    var k := NameIndex(st.rows, name);
    assert st'.rows[k].name == name;
    assert forall i :: 0 <= i < k ==> st'.rows[i].name != name;
    assert NameIndex(st'.rows, name) == k;
  }

  /** With no row flagged 0, a site once scraped stays scraped as the
      store grows. */
  lemma ScrapedMonotone(st: DbState, st': DbState, site: string)
    requires st.Grows(st') && st'.NoFalseFlag()
    ensures st.Scraped(site) ==> st'.Scraped(site)
  {
    if st.HasFlag(site, true) {
      var i :| 0 <= i < |st.rows| && st.rows[i].url == site && st.rows[i].scraped == Some(true);
      assert st'.rows[i].url == site && st'.rows[i].scraped == Some(true);
    } else if site in st.ledger {
      assert site in st'.ledger;
    }
  }

  /** Growth keeps the store free of rows flagged 0. */
  lemma GrowsNoFalseFlag(st: DbState, st': DbState)
    requires st.Grows(st') && st.NoFalseFlag()
    ensures st'.NoFalseFlag()
  {
    forall i | 0 <= i < |st'.rows|
      ensures st'.rows[i].scraped != Some(false)
    {
      if i < |st.rows| {
        assert st'.rows[i].scraped == st.rows[i].scraped;
      }
    }
  }

  lemma GrowsTrans(a: DbState, b: DbState, c: DbState)
    requires a.Grows(b) && b.Grows(c)
    ensures a.Grows(c)
  {
  }

  /** Marking a site makes it scraped exactly when no row flagged 0 vetoes
      it. */
  lemma MarkScrapedEffective(st: DbState, site: string)
    ensures st.MarkScraped(site).Scraped(site) <==> !st.HasFlag(site, false) || st.HasFlag(site, true)
  {
  }

  /** A ref lookup that missed hits, with the value just classified, once
      `create_ref` has stored it under the raw key. */
  lemma GetRefAfterCreate(st: DbState, quoted: string, href: string, html: string, isCard: bool)
    requires !st.GetRef(quoted, href).0
    ensures st.CreateRef(href, html, isCard).GetRef(quoted, href) == (true, isCard)
  {
    var st' := st.CreateRef(href, html, isCard);
    assert !st.HasRef(href);
    assert RefIndex(st'.refs, quoted, href) == |st.refs|;
  }

  /** `create_ref` is write-once: a ref row, once present, is never
      changed by a later insert for any key. */
  lemma CreateRefWriteOnce(st: DbState, href: string, html: string, isCard: bool, i: nat)
    requires i < |st.refs|
    ensures i < |st.CreateRef(href, html, isCard).refs|
    ensures st.CreateRef(href, html, isCard).refs[i] == st.refs[i]
  {
  }

  /** `register_digimon` and `create_ref` keep the store valid; the other
      writes touch no column that `Valid` speaks of. */
  lemma RegisterDigimonValid(st: DbState, d: ScrapeDigimon)
    requires st.Valid()
    ensures st.RegisterDigimon(d).0.Valid()
  {
    var st' := st.RegisterDigimon(d).0;
    if st.ExistsDigimon(d.name).None? {
      var n := |st.rows|;
      forall i, j | 0 <= i < j < |st'.rows|
        ensures st'.rows[i].id < st'.rows[j].id && st'.rows[i].name != st'.rows[j].name
      {
        if j == n {
          assert st.rows[n - 1].id >= st.rows[i].id;
        }
      }
    }
  }

  lemma CreateRefValid(st: DbState, href: string, html: string, isCard: bool)
    requires st.Valid()
    ensures st.CreateRef(href, html, isCard).Valid()
  {
  }

  lemma RegisterEvolutionLinksValid(st: DbState, prev: seq<string>, nxt: seq<string>, id: int)
    requires st.Valid()
    ensures st.RegisterEvolutionLinks(prev, nxt, id).Valid()
  {
  }

  /** In a valid store `register_evolution_links` changes exactly one
      row when a row has that id, and none otherwise. */
  lemma RegisterEvolutionLinksOneRow(st: DbState, prev: seq<string>, nxt: seq<string>, id: int, k: nat)
    requires st.Valid() && k < |st.rows| && st.rows[k].id == id
    ensures var st' := st.RegisterEvolutionLinks(prev, nxt, id);
            && st'.rows[k].prevLinks == Some(prev) && st'.rows[k].nextLinks == Some(nxt)
            && forall i :: 0 <= i < |st.rows| && i != k ==> st'.rows[i] == st.rows[i]
  {
    var st' := st.RegisterEvolutionLinks(prev, nxt, id);
    forall i | 0 <= i < |st.rows| && i != k
      ensures st'.rows[i] == st.rows[i]
    {
      if i < k {
        assert st.rows[i].id < st.rows[k].id;
      } else {
        assert st.rows[k].id < st.rows[i].id;
      }
    }
  }

  /** Every site `get_unscraped_links` returns is linked and not scraped. */
  lemma UnscrapedLinksSound(st: DbState, site: string)
    requires site in st.GetUnscrapedLinks()
    ensures site in st.LinkSites() && !st.Scraped(site)
  {
  }

  /** Without rows flagged 0, every linked site that is not scraped is
      returned. */
  lemma UnscrapedLinksComplete(st: DbState, site: string)
    requires st.NoFalseFlag()
    requires site in st.LinkSites() && !st.Scraped(site)
    ensures site in st.GetUnscrapedLinks()
  {
  }

  /** The query lacks the flag-0 veto of `scraped`: a linked site that is
      in the ledger but vetoed by a row flagged 0 is not scraped, yet it
      is not returned. */
  lemma UnscrapedLinksMissVetoed(st: DbState, site: string)
    requires site in st.LinkSites() && site in st.ledger
    requires st.HasFlag(site, false) && !st.HasFlag(site, true)
    ensures !st.Scraped(site) && site !in st.GetUnscrapedLinks()
  {
  }

  // ---------------------------------------------------------------------
  // Report helpers: stage tables, name lists and grouping by stage.

  /** Stage names as they appear on the wiki, to stage numbers. */
  const StageMap: map<string, int> := map[
    "baby i" := 1, "baby ii" := 2, "child" := 3, "adult" := 4,
    "perfect" := 5, "ultimate" := 6, "armor" := 4, "hybrid" := 4]

  /** Stage numbers to display names. */
  const DisplayStage: map<int, string> := map[
    1 := "Baby I", 2 := "Baby II", 3 := "Child", 4 := "Adult",
    5 := "Perfect", 6 := "Ultimate"]

  /** Every stage number a stage name maps to has a display name. */
  lemma StageMapDisplayable()
    ensures forall name :: name in StageMap ==> StageMap[name] in DisplayStage
  {
  }

  /** `digimon_from_namelist` as a value: the record of each name that has
      a row, in name order; unknown names are skipped. */
  function FromNamelist(st: DbState, names: seq<string>): (r: seq<Digimon>)
    ensures |r| <= |names|
  {
    if names == [] then []
    else
      var rest := FromNamelist(st, names[1..]);
      match st.DigimonByName(names[0])
      case None => rest
      case Some(d) => [d] + rest
  }

  /** Every record returned is the row of one of the names, and every name
      that has a row has its record returned. */
  lemma {:induction false} FromNamelistMembers(st: DbState, names: seq<string>)
    ensures var r := FromNamelist(st, names);
            && (forall d :: d in r ==> d.name in names && st.DigimonByName(d.name) == Some(d))
            && (forall n :: n in names && st.DigimonByName(n).Some? ==> st.DigimonByName(n).value in r)
    decreases |names|
  {
    if names != [] {
      FromNamelistMembers(st, names[1..]);
      assert names == [names[0]] + names[1..];
    }
  }

  /** `FromNamelist` from position `i` is the record of the name there,
      if it has one, and the rest. */
  lemma FromNamelistAt(st: DbState, names: seq<string>, i: nat)
    requires i < |names|
    ensures FromNamelist(st, names[i..])
            == (if st.DigimonByName(names[i]).Some? then [st.DigimonByName(names[i]).value] else [])
               + FromNamelist(st, names[i + 1..])
  {
    assert names[i..][1..] == names[i + 1..];
  }

  /** The names that have a row, in order. */
  function KnownNames(st: DbState, names: seq<string>): seq<string>
  {
    if names == [] then []
    else
      var rest := KnownNames(st, names[1..]);
      if st.DigimonByName(names[0]).Some? then [names[0]] + rest else rest
  }

  function Names(ds: seq<Digimon>): seq<string>
  {
    if ds == [] then [] else [ds[0].name] + Names(ds[1..])
  }

  /** The records come back in the order of the names asked for, one per
      known name, none for an unknown one. */
  lemma {:induction false} FromNamelistOrder(st: DbState, names: seq<string>)
    ensures Names(FromNamelist(st, names)) == KnownNames(st, names)
    ensures SubSeq(KnownNames(st, names), names)
  {
    if names != [] {
      FromNamelistOrder(st, names[1..]);
      var rest := FromNamelist(st, names[1..]);
      match st.DigimonByName(names[0])
      case None =>
        SubSeqCons(names[0], KnownNames(st, names[1..]), names[1..]);
        assert names == [names[0]] + names[1..];
      case Some(d) =>
        assert ([d] + rest)[1..] == rest;
        SubSeqCons(names[0], KnownNames(st, names[1..]), names[1..]);
        assert names == [names[0]] + names[1..];
    }
  }

  /** The members of `list` with stage `k`, in order. */
  function StageGroup(list: seq<Digimon>, k: Option<int>): (r: seq<Digimon>)
    ensures |r| <= |list|
    ensures forall d :: d in r ==> d in list && d.stage == k
  {
    if list == [] then []
    else
      var front := list[..|list| - 1];
      var last := list[|list| - 1];
      var g := StageGroup(front, k);
      assert list == front + [last];
      if last.stage == k then g + [last] else g
  }

  /** A group keeps the list's order, and holds each member of its stage
      as often as the list does and no other. */
  lemma {:induction false} StageGroupInOrder(list: seq<Digimon>, k: Option<int>)
    ensures SubSeq(StageGroup(list, k), list)
    ensures forall d :: multiset(StageGroup(list, k))[d] == if d.stage == k then multiset(list)[d] else 0
    decreases |list|
  {
    if list != [] {
      var front := list[..|list| - 1];
      var last := list[|list| - 1];
      StageGroupInOrder(front, k);
      assert list == front + [last];
      SubSeqSnoc(last, StageGroup(front, k), front);
    }
  }

  /** The distinct stages of `list` in order of first appearance: the key
      order of the dict `group_by_stage` builds. */
  function StageOrder(list: seq<Digimon>): (r: seq<Option<int>>)
    ensures NoDup(r)
    ensures forall k :: k in r <==> exists i :: 0 <= i < |list| && list[i].stage == k
  {
    if list == [] then []
    else
      var front := StageOrder(list[..|list| - 1]);
      var last := list[|list| - 1].stage;
      assert forall i :: 0 <= i < |list| - 1 ==> list[..|list| - 1][i] == list[i];
      if last in front then front else front + [last]
  }

  /** The members a grouping holds under `k`; none when `k` is no key. */
  function GroupSize(groups: map<Option<int>, seq<Digimon>>, k: Option<int>): nat
  {
    if k in groups then |groups[k]| else 0
  }

  /** Total size of the groups named by `keys`. */
  function GroupSizes(groups: map<Option<int>, seq<Digimon>>, keys: seq<Option<int>>): nat
  {
    if keys == [] then 0 else GroupSize(groups, keys[0]) + GroupSizes(groups, keys[1..])
  }

  /** The grouping as a map, one entry per stage that occurs. */
  function StageGroups(list: seq<Digimon>): (groups: map<Option<int>, seq<Digimon>>)
    ensures forall k :: k in groups <==> k in StageOrder(list)
  {
    map k | k in StageOrder(list) :: StageGroup(list, k)
  }

  /** A stage that does not occur has an empty group. */
  lemma {:induction false} StageGroupAbsent(list: seq<Digimon>, k: Option<int>)
    requires k !in StageOrder(list)
    ensures StageGroup(list, k) == []
    decreases |list|
  {
    if list != [] {
      var front := list[..|list| - 1];
      assert k !in StageOrder(front);
      StageGroupAbsent(front, k);
    }
  }

  /** Appending one member extends its stage's group and no other. */
  lemma StageGroupsSnoc(list: seq<Digimon>, d: Digimon)
    ensures StageOrder(list + [d]) ==
      if d.stage in StageOrder(list) then StageOrder(list) else StageOrder(list) + [d.stage]
    ensures StageGroups(list + [d]) == StageGroups(list)[d.stage := StageGroup(list, d.stage) + [d]]
  {
    var all := list + [d];
    assert all[..|all| - 1] == list;
    forall k | k != d.stage
      ensures StageGroup(all, k) == StageGroup(list, k)
    {
    }
  }

  /** One iteration of `group_by_stage`'s loop, on the spec side. */
  lemma GroupStep(done: seq<Digimon>, d: Digimon)
    ensures var groups := StageGroups(done);
            if d.stage in groups then
              && StageGroups(done + [d]) == groups[d.stage := groups[d.stage] + [d]]
              && StageOrder(done + [d]) == StageOrder(done)
            else
              && StageGroups(done + [d]) == groups[d.stage := [d]]
              && StageOrder(done + [d]) == StageOrder(done) + [d.stage]
  {
    StageGroupsSnoc(done, d);
    var groups := StageGroups(done);
    if d.stage in groups {
      assert groups[d.stage] == StageGroup(done, d.stage);
    } else {
      StageGroupAbsent(done, d.stage);
      assert StageGroup(done, d.stage) + [d] == [d];
    }
  }

  /** `group_by_stage`: a dict from stage to the members with that stage,
      in input order; `order` is the dict's key order. */
  method GroupByStage(list: seq<Digimon>) returns (groups: map<Option<int>, seq<Digimon>>, order: seq<Option<int>>)
    ensures order == StageOrder(list)
    ensures groups == StageGroups(list)
  {
    groups, order := map[], [];
    var i := 0;
    while i < |list|
      invariant 0 <= i <= |list|
      invariant order == StageOrder(list[..i])
      invariant groups == StageGroups(list[..i])
    {
      var d := list[i];
      assert list[..i + 1] == list[..i] + [d];
      GroupStep(list[..i], d);
      if d.stage in groups {
        groups := groups[d.stage := groups[d.stage] + [d]];
      } else {
        groups := groups[d.stage := [d]];
        order := order + [d.stage];
      }
      i := i + 1;
    }
    assert list[..i] == list;
  }

  /** Replacing one group changes the total over duplicate-free keys by
      the change in that group's size. */
  lemma {:induction false} GroupSizesUpdate(groups: map<Option<int>, seq<Digimon>>, keys: seq<Option<int>>,
                                            k: Option<int>, g: seq<Digimon>)
    requires NoDup(keys)
    ensures GroupSizes(groups[k := g], keys) + (if k in keys then GroupSize(groups, k) else 0) ==
            GroupSizes(groups, keys) + (if k in keys then |g| else 0)
    decreases |keys|
  {
    if keys != [] {
      assert NoDup(keys[1..]) by {
        forall i, j | 0 <= i < j < |keys[1..]| ensures keys[1..][i] != keys[1..][j] {
          assert keys[1..][i] == keys[i + 1] && keys[1..][j] == keys[j + 1];
        }
      }
      GroupSizesUpdate(groups, keys[1..], k, g);
      assert k in keys <==> k == keys[0] || k in keys[1..];
      assert k == keys[0] ==> k !in keys[1..];
    }
  }

  /** A key outside the grouping adds nothing. */
  lemma {:induction false} GroupSizesExtraKey(groups: map<Option<int>, seq<Digimon>>, keys: seq<Option<int>>, k: Option<int>)
    requires k !in groups
    ensures GroupSizes(groups, keys + [k]) == GroupSizes(groups, keys)
    decreases |keys|
  {
    if keys != [] {
      assert (keys + [k])[1..] == keys[1..] + [k];
      GroupSizesExtraKey(groups, keys[1..], k);
    } else {
      assert ([k])[1..] == [];
    }
  }

  /** `group_by_stage` partitions its input: the group sizes, summed over
      the dict's keys, add up to the input length. */
  lemma {:induction false} GroupSizesTotal(list: seq<Digimon>)
    ensures GroupSizes(StageGroups(list), StageOrder(list)) == |list|
    decreases |list|
  {
    if list != [] {
      var front := list[..|list| - 1];
      var d := list[|list| - 1];
      assert list == front + [d];
      GroupSizesTotal(front);
      StageGroupsSnoc(front, d);
      var groups := StageGroups(front);
      var g := StageGroup(front, d.stage) + [d];
      var keys := StageOrder(list);
      var fkeys := StageOrder(front);
      if d.stage in fkeys {
        GroupSizesUpdate(groups, fkeys, d.stage, g);
      } else {
        StageGroupAbsent(front, d.stage);
        GroupSizesExtraKey(groups, fkeys, d.stage);
        GroupSizesUpdate(groups, keys, d.stage, g);
        assert GroupSize(groups, d.stage) == 0;
        assert GroupSizes(groups, keys) == GroupSizes(groups, fkeys);
      }
    }
  }

  /** The store object the crawler writes through. */
  class DigiDB {
    var ledger: set<string>
    var rows: seq<Row>
    var refs: seq<RefRow>

    function State(): DbState
      reads this
    {
      DbState(ledger, rows, refs)
    }

    constructor (st: DbState)
      ensures State() == st
    {
      ledger, rows, refs := st.ledger, st.rows, st.refs;
    }

    method MarkScraped(site: string)
      modifies this
      ensures State() == old(State()).MarkScraped(site)
      ensures State().Scraped(site) <==> !State().HasFlag(site, false) || State().HasFlag(site, true)
    {
      ledger := ledger + {site};
    }

    method CreateRef(href: string, html: string, isCard: bool)
      modifies this
      ensures State() == old(State()).CreateRef(href, html, isCard)
    {
      if !State().HasRef(href) {
        refs := refs + [RefRow(href, html, isCard)];
      }
    }

    method RegisterEvolutionLinks(prev: seq<string>, nxt: seq<string>, id: int)
      modifies this
      ensures State() == old(State()).RegisterEvolutionLinks(prev, nxt, id)
    {
      var current := rows;
      rows := seq(|current|, i requires 0 <= i < |current| =>
        if current[i].id == id then current[i].(prevLinks := Some(prev), nextLinks := Some(nxt)) else current[i]);
    }

    method RegisterDigimon(d: ScrapeDigimon) returns (r: ScrapeDigimon)
      modifies this
      ensures (State(), r) == old(State()).RegisterDigimon(d)
    {
      var existing := State().ExistsDigimon(d.name);
      if existing.Some? {
        r := d.(id := existing);
      } else {
        var id := State().NextRowId();
        rows := rows + [NewRow(id, d)];
        r := d.(id := Some(id));
      }
    }

    /** `DigiDB.digimon_from_namelist`. */
    method DigimonFromNamelist(names: seq<string>) returns (list: seq<Digimon>)
      ensures list == FromNamelist(State(), names)
    {
      var st := State();
      list := [];
      for i := 0 to |names|
        invariant list + FromNamelist(st, names[i..]) == FromNamelist(st, names)
      {
        var d := st.DigimonByName(names[i]);
        var found := if d.Some? then [d.value] else [];
        FromNamelistAt(st, names, i);
        AppendAssoc(list, found, FromNamelist(st, names[i + 1..]));
        list := list + found;
      }
      assert names[|names|..] == [];
    }
  }
}
