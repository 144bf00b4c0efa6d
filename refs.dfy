/** Citation handling of wikimonscrape/scrape/process.py: the cache-first
    page request, the memoised card-game classifier over the `refs` table,
    and `get_ref_data`, which counts the citation markers of a candidate
    link and classifies the targets they resolve to. Each operation is a
    function from the world before to the world after and its outcome. */
module Refs {
  import opened Common
  import opened Store
  import opened Web

  /** `delayed_request`: the stored page of `href` when the store has a
      non-empty one, otherwise one network request. The store is never
      written. */
  function DelayedRequest(w: World, env: Env, href: string): (r: Step<string>)
    ensures Quiet(w, r.w) && r.w.db == w.db
    ensures r.w.log == w.log || r.w.log == w.log + [Fetch(href)]
    ensures r.w.log == w.log <==> w.db.DigimonHtml(href).Some? && w.db.DigimonHtml(href).value != ""
    ensures r.w.log == w.log ==> r.out == Ok(w.db.DigimonHtml(href).value)
    ensures r.w.log != w.log ==> r.out == match env.web(href)
                                          case Body(html) => Ok(html)
                                          case Raises(e) => Fail(e)
  {
    var cached := w.db.DigimonHtml(href);
    if cached.Some? && cached.value != "" then Step(w, Ok(cached.value))
    else
      GettingsFetch(w.log, href);
      var w' := World(w.db, w.log + [Fetch(href)]);
      match env.web(href)
      case Body(html) => Step(w', Ok(html))
      case Raises(e) => Step(w', Fail(e))
  }

  /** `create_ref`: request the page, classify it as a card page iff it
      links `Category:List of Cards`, store the result under the raw href
      and return it. A failed request stores nothing. */
  function CreateRef(w: World, env: Env, href: string): (r: Step<bool>)
    ensures Quiet(w, r.w) && |r.w.log| <= |w.log| + 1
    ensures r.out.Fail? ==> r.w.db == w.db
    ensures r.out.Ok? ==> r.w.db.HasRef(href)
    ensures var q := DelayedRequest(w, env, href);
            && r.w.log == q.w.log
            && (q.out.Fail? ==> r.out == Fail(q.out.error))
            && (q.out.Ok? ==> && r.out == Ok(env.parse(q.out.value).cardCategory)
                              && r.w.db == w.db.CreateRef(href, q.out.value, r.out.value))
  {
    var req := DelayedRequest(w, env, href);
    match req.out
    case Fail(e) => Step(req.w, Fail(e))
    case Ok(html) =>
      var isCard := env.parse(html).cardCategory;
      Step(req.w.(db := req.w.db.CreateRef(href, html, isCard)), Ok(isCard))
  }

  /** The `refs` lookup `is_cardgame_ref` starts with: under the
      percent-encoded key or under the raw href. */
  function RefLookup(db: DbState, env: Env, href: string): (r: (bool, bool))
    ensures !r.0 <==> !db.HasRef(env.quote(href)) && !db.HasRef(href)
    ensures !r.0 ==> !r.1
    ensures r.0 ==> exists i :: 0 <= i < |db.refs| && db.refs[i].url in {env.quote(href), href} && db.refs[i].isCard == r.1
  {
    db.GetRef(env.quote(href), href)
  }

  /** `is_cardgame_ref`: the memoised flag on a hit; on a miss `false`
      when cards are assumed filled (`ASSUME_CARDS_FILLED`), otherwise a
      fresh classification. */
  function IsCardgameRef(w: World, env: Env, assumeFilled: bool, href: string): (r: Step<bool>)
    ensures Quiet(w, r.w) && |r.w.log| <= |w.log| + 1
    ensures RefLookup(w.db, env, href).0 ==> r == Step(w, Ok(RefLookup(w.db, env, href).1))
    ensures !RefLookup(w.db, env, href).0 && assumeFilled ==> r == Step(w, Ok(false))
    ensures r.out.Ok? && !(!RefLookup(w.db, env, href).0 && assumeFilled) ==>
              RefLookup(r.w.db, env, href) == (true, r.out.value)
  {
    var (found, isCard) := RefLookup(w.db, env, href);
    if found then Step(w, Ok(isCard))
    else if assumeFilled then Step(w, Ok(false))
    else
      var c := CreateRef(w, env, href);
      var q := DelayedRequest(w, env, href);
      if c.out.Ok? then
        GetRefAfterCreate(w.db, env.quote(href), href, q.out.value, c.out.value);
        c
      else c
  }

  /** On a miss with cards not assumed filled, classification is exactly
      `create_ref`. */
  lemma IsCardgameRefCreates(w: World, env: Env, assumeFilled: bool, href: string)
    requires !RefLookup(w.db, env, href).0 && !assumeFilled
    ensures IsCardgameRef(w, env, assumeFilled, href) == CreateRef(w, env, href)
  {
  }

  /** A ref lookup that hit keeps its answer while the `refs` table only
      grows at the end. */
  lemma RefHitPersists(db: DbState, db': DbState, h1: string, h2: string)
    requires db.refs <= db'.refs && db.GetRef(h1, h2).0
    ensures db'.GetRef(h1, h2) == db.GetRef(h1, h2)
  {
    var k := RefIndex(db.refs, h1, h2);
    var k' := RefIndex(db'.refs, h1, h2);
    assert db'.refs[k] == db.refs[k];
  }

  /** Asking again answers the same with no effect. */
  lemma ClassifyIdempotent(w: World, env: Env, assumeFilled: bool, href: string)
    requires IsCardgameRef(w, env, assumeFilled, href).out.Ok?
    ensures var r := IsCardgameRef(w, env, assumeFilled, href);
            IsCardgameRef(r.w, env, assumeFilled, href) == Step(r.w, r.out)
  {
    var r := IsCardgameRef(w, env, assumeFilled, href);
    if !RefLookup(w.db, env, href).0 && assumeFilled {
      assert r.w == w;
    }
  }

  /** Once a target has been classified (not merely assumed), every later
      world whose `refs` table extends this one answers from the table
      without a request: a target is fetched for classification at most
      once. */
  lemma ClassifiedStaysCached(w: World, env: Env, assumeFilled: bool, href: string, later: World)
    requires IsCardgameRef(w, env, assumeFilled, href).out.Ok?
    requires RefLookup(w.db, env, href).0 || !assumeFilled
    requires IsCardgameRef(w, env, assumeFilled, href).w.db.refs <= later.db.refs
    ensures IsCardgameRef(later, env, assumeFilled, href) == Step(later, IsCardgameRef(w, env, assumeFilled, href).out)
  {
    var r := IsCardgameRef(w, env, assumeFilled, href);
    RefHitPersists(r.w.db, later.db, env.quote(href), href);
  }

  /** The prefix of a citation marker's href. */
  const CiteTag: string := "#cite"

  /** A note target containing this, in lower case, is a Battle Spirits
      card page and is never classified. */
  const BattleSpiritsTag: string := "battle-spirits"

  /** The `#cite` links among the anchors of a list item, in order: the
      markers `get_ref_data` iterates over. */
  function CiteMarkers(anchors: seq<string>): (r: seq<string>)
    ensures |r| <= |anchors|
    ensures forall m :: m in r <==> m in anchors && StartsWith(m, CiteTag)
  {
    if anchors == [] then []
    else
      var front := anchors[..|anchors| - 1];
      var last := anchors[|anchors| - 1];
      var markers := CiteMarkers(front);
      assert anchors == front + [last];
      if StartsWith(last, CiteTag) then markers + [last] else markers
  }

  /** The markers come in anchor order, each `#cite` anchor as often as
      it occurs and no other anchor. */
  lemma {:induction false} CiteMarkersInOrder(anchors: seq<string>)
    ensures SubSeq(CiteMarkers(anchors), anchors)
    ensures forall m :: multiset(CiteMarkers(anchors))[m] == if StartsWith(m, CiteTag) then multiset(anchors)[m] else 0
    decreases |anchors|
  {
    if anchors != [] {
      var front := anchors[..|anchors| - 1];
      var last := anchors[|anchors| - 1];
      CiteMarkersInOrder(front);
      assert anchors == front + [last];
      SubSeqSnoc(last, CiteMarkers(front), front);
    }
  }

  /** The note id of a marker: the marker without its leading `#`s. */
  function NoteId(marker: string): (r: string)
    ensures |r| <= |marker| && r == marker[|marker| - |r|..] && (r == [] || r[0] != '#')
    ensures forall i :: 0 <= i < |marker| - |r| ==> marker[i] == '#'
  {
    LStrip(marker, '#')
  }

  /** The marker resolves to a note whose anchor has no href; reading its
      href then fails outside any `try`. */
  predicate Hrefless(notes: map<string, Option<string>>, marker: string)
  {
    NoteId(marker) in notes && notes[NoteId(marker)].None?
  }

  /** The marker resolves to a local, non-Battle-Spirits target: the only
      markers that reach the classifier. */
  predicate Classifiable(notes: map<string, Option<string>>, marker: string)
  {
    && NoteId(marker) in notes
    && notes[NoteId(marker)].Some?
    && !Contains(Lower(notes[NoteId(marker)].value), BattleSpiritsTag)
    && StartsWith(notes[NoteId(marker)].value, "/")
  }

  /** How many markers reach the classifier. */
  function CountClassifiable(notes: map<string, Option<string>>, markers: seq<string>): (n: nat)
    ensures n <= |markers|
  {
    if markers == [] then 0
    else (if Classifiable(notes, markers[0]) then 1 else 0) + CountClassifiable(notes, markers[1..])
  }

  /** One iteration of the loop of `get_ref_data`, for `marker`, from the
      flag and counter `onlyCard`/`noncard`. A marker without a note, or
      whose target is a Battle Spirits page or not a wiki path, is skipped;
      an `AttributeError` from the classifier skips just this marker; any
      other exception, and a note anchor without href, ends the run.
      `Hrefless` and `Classifiable` name the tests of the loop body. */
  function RefStep(w: World, env: Env, assumeFilled: bool, notes: map<string, Option<string>>,
                   marker: string, onlyCard: bool, noncard: nat): (r: Step<(bool, nat)>)
    ensures Quiet(w, r.w)
    ensures !Classifiable(notes, marker) && !Hrefless(notes, marker) ==> r == Step(w, Ok((onlyCard, noncard)))
    ensures Hrefless(notes, marker) ==> r == Step(w, Fail(AttributeError))
    ensures r.out.Ok? ==> noncard <= r.out.value.1 <= noncard + (if Classifiable(notes, marker) then 1 else 0)
    ensures r.out.Ok? ==> (r.out.value.0 <==> onlyCard && r.out.value.1 == noncard)
  {
    if Hrefless(notes, marker) then Step(w, Fail(AttributeError))
    else if !Classifiable(notes, marker) then Step(w, Ok((onlyCard, noncard)))
    else
      var c := IsCardgameRef(w, env, assumeFilled, notes[NoteId(marker)].value);
      match c.out
      case Fail(AttributeError) => Step(c.w, Ok((onlyCard, noncard)))
      case Fail(OtherError) => Step(c.w, Fail(OtherError))
      case Ok(isCard) =>
        if isCard then Step(c.w, Ok((onlyCard, noncard)))
        else Step(c.w, Ok((false, noncard + 1)))
  }

  /** A classifiable marker takes the classifier's world; a target that
      is not a card page counts one, a card page nothing, an
      `AttributeError` skips the marker and any other exception ends the
      run. */
  lemma RefStepClassifies(w: World, env: Env, assumeFilled: bool, notes: map<string, Option<string>>,
                          marker: string, onlyCard: bool, noncard: nat)
    requires Classifiable(notes, marker)
    ensures var r := RefStep(w, env, assumeFilled, notes, marker, onlyCard, noncard);
            var c := IsCardgameRef(w, env, assumeFilled, notes[NoteId(marker)].value);
            && r.w == c.w
            && (c.out == Ok(false) ==> r.out == Ok((false, noncard + 1)))
            && (c.out == Ok(true) ==> r.out == Ok((onlyCard, noncard)))
            && (c.out == Fail(AttributeError) ==> r.out == Ok((onlyCard, noncard)))
            && (c.out == Fail(OtherError) ==> r.out == Fail(OtherError))
  {
    var r := RefStep(w, env, assumeFilled, notes, marker, onlyCard, noncard);
    var c := IsCardgameRef(w, env, assumeFilled, notes[NoteId(marker)].value);
    assert !Hrefless(notes, marker);
    match c.out
    case Ok(isCard) =>
      assert r == Step(c.w, Ok(if isCard then (onlyCard, noncard) else (false, noncard + 1)));
    case Fail(e) =>
      assert r == Step(c.w, if e == OtherError then Fail(OtherError) else Ok((onlyCard, noncard)));
  }

  /** The loop of `get_ref_data` over `markers`, from `onlyCard`/`noncard`:
      the counter grows by at most the number of classifiable markers, and
      the flag stays set exactly while the counter has not grown. */
  function RefLoop(w: World, env: Env, assumeFilled: bool, notes: map<string, Option<string>>,
                   markers: seq<string>, onlyCard: bool, noncard: nat): (r: Step<(bool, nat)>)
    ensures Quiet(w, r.w)
    ensures r.out.Ok? ==> noncard <= r.out.value.1 <= noncard + CountClassifiable(notes, markers)
    ensures r.out.Ok? ==> (r.out.value.0 <==> onlyCard && r.out.value.1 == noncard)
    decreases |markers|
  {
    if markers == [] then Step(w, Ok((onlyCard, noncard)))
    else
      var s := RefStep(w, env, assumeFilled, notes, markers[0], onlyCard, noncard);
      match s.out
      case Fail(e) => Step(s.w, Fail(e))
      case Ok((onlyCard', noncard')) =>
        var r := RefLoop(s.w, env, assumeFilled, notes, markers[1..], onlyCard', noncard');
        QuietTrans(w, s.w, r.w);
        r
  }

  /** `RefLoop` over a non-empty list is one `RefStep` and the rest. */
  lemma RefLoopUnfold(w: World, env: Env, assumeFilled: bool, notes: map<string, Option<string>>,
                      markers: seq<string>, onlyCard: bool, noncard: nat)
    requires markers != []
    ensures var s := RefStep(w, env, assumeFilled, notes, markers[0], onlyCard, noncard);
            RefLoop(w, env, assumeFilled, notes, markers, onlyCard, noncard)
            == if s.out.Fail? then Step(s.w, Fail(s.out.error))
               else RefLoop(s.w, env, assumeFilled, notes, markers[1..], s.out.value.0, s.out.value.1)
  {
  }

  /** Markers that neither resolve to a classifiable target nor to an
      anchor without href change nothing: no request, no count. */
  lemma {:induction false} UnclassifiedInert(w: World, env: Env, assumeFilled: bool, notes: map<string, Option<string>>,
                                             markers: seq<string>, onlyCard: bool, noncard: nat)
    requires forall m :: m in markers ==> !Classifiable(notes, m) && !Hrefless(notes, m)
    ensures RefLoop(w, env, assumeFilled, notes, markers, onlyCard, noncard) == Step(w, Ok((onlyCard, noncard)))
    decreases |markers|
  {
    if markers != [] {
      assert markers[0] in markers;
      assert forall m :: m in markers[1..] ==> m in markers;
      UnclassifiedInert(w, env, assumeFilled, notes, markers[1..], onlyCard, noncard);
    }
  }

  /** The markers whose target the `refs` table of `db` does not mark as a
      card page (a missing row reads as not a card): an independent count
      of what `get_ref_data` should report. */
  function CountNonCard(db: DbState, env: Env, notes: map<string, Option<string>>, markers: seq<string>): (n: nat)
    ensures n <= CountClassifiable(notes, markers)
  {
    if markers == [] then 0
    else NonCardAt(db, env, notes, markers[0]) + CountNonCard(db, env, notes, markers[1..])
  }

  /** 1 when `marker` is classifiable and the table does not mark its
      target as a card page, else 0. */
  function NonCardAt(db: DbState, env: Env, notes: map<string, Option<string>>, marker: string): nat
  {
    if Classifiable(notes, marker) && !RefLookup(db, env, notes[NoteId(marker)].value).1 then 1 else 0
  }

  /** The marker can be answered without a request: it is not an anchor
      without href, and a classifiable target either has a ref row or
      cards are assumed filled. */
  predicate Answered(db: DbState, env: Env, assumeFilled: bool, notes: map<string, Option<string>>, marker: string)
  {
    && !Hrefless(notes, marker)
    && (Classifiable(notes, marker) ==> assumeFilled || RefLookup(db, env, notes[NoteId(marker)].value).0)
  }

  /** `Answered` for each marker, in list order. */
  predicate AllAnswered(db: DbState, env: Env, assumeFilled: bool, notes: map<string, Option<string>>, markers: seq<string>)
    decreases |markers|
  {
    markers == [] || (Answered(db, env, assumeFilled, notes, markers[0]) && AllAnswered(db, env, assumeFilled, notes, markers[1..]))
  }

  lemma {:induction false} AllAnsweredFromMembers(db: DbState, env: Env, assumeFilled: bool, notes: map<string, Option<string>>, markers: seq<string>)
    requires forall m :: m in markers ==> Answered(db, env, assumeFilled, notes, m)
    ensures AllAnswered(db, env, assumeFilled, notes, markers)
    decreases |markers|
  {
    if markers != [] {
      assert markers[0] in markers;
      assert forall x :: x in markers[1..] ==> x in markers;
      AllAnsweredFromMembers(db, env, assumeFilled, notes, markers[1..]);
    }
  }

  lemma {:induction false} RefLoopFromTable(w: World, env: Env, assumeFilled: bool, notes: map<string, Option<string>>,
                                            markers: seq<string>, onlyCard: bool, noncard: nat)
    requires AllAnswered(w.db, env, assumeFilled, notes, markers)
    ensures var r := RefLoop(w, env, assumeFilled, notes, markers, onlyCard, noncard);
            var n := CountNonCard(w.db, env, notes, markers);
            && r.w == w && r.out.Ok?
            && r.out.value.1 == noncard + n
            && (r.out.value.0 <==> onlyCard && n == 0)
    decreases |markers|
  {
    if markers != [] {
      var rest := markers[1..];
      var d := NonCardAt(w.db, env, notes, markers[0]);
      var b, n := onlyCard && d == 0, noncard + d;
      assert Answered(w.db, env, assumeFilled, notes, markers[0]) && AllAnswered(w.db, env, assumeFilled, notes, rest);
      RefStepFromTable(w, env, assumeFilled, notes, markers[0], onlyCard, noncard);
      RefLoopAfterOk(w, env, assumeFilled, notes, markers, onlyCard, noncard, w, b, n);
      RefLoopFromTable(w, env, assumeFilled, notes, rest, b, n);
      assert CountNonCard(w.db, env, notes, markers) == d + CountNonCard(w.db, env, notes, rest);
    }
  }

  /** A first step that succeeds hands its world, flag and count to the
      loop over the remaining markers. */
  lemma RefLoopAfterOk(w: World, env: Env, assumeFilled: bool, notes: map<string, Option<string>>,
                       markers: seq<string>, onlyCard: bool, noncard: nat, w': World, onlyCard': bool, noncard': nat)
    requires markers != []
    requires RefStep(w, env, assumeFilled, notes, markers[0], onlyCard, noncard) == Step(w', Ok((onlyCard', noncard')))
    ensures RefLoop(w, env, assumeFilled, notes, markers, onlyCard, noncard)
            == RefLoop(w', env, assumeFilled, notes, markers[1..], onlyCard', noncard')
  {
    RefLoopUnfold(w, env, assumeFilled, notes, markers, onlyCard, noncard);
  }

  /** A marker answered from the table: no request, and one more count
      exactly when the table marks its target as not a card page. */
  lemma RefStepFromTable(w: World, env: Env, assumeFilled: bool, notes: map<string, Option<string>>,
                         marker: string, onlyCard: bool, noncard: nat)
    requires Answered(w.db, env, assumeFilled, notes, marker)
    ensures var d := NonCardAt(w.db, env, notes, marker);
            RefStep(w, env, assumeFilled, notes, marker, onlyCard, noncard) == Step(w, Ok((onlyCard && d == 0, noncard + d)))
  {
    if Classifiable(notes, marker) {
      var target := notes[NoteId(marker)].value;
      var c := IsCardgameRef(w, env, assumeFilled, target);
      assert c == Step(w, Ok(RefLookup(w.db, env, target).1)) || c == Step(w, Ok(false));
      assert !RefLookup(w.db, env, target).0 ==> !RefLookup(w.db, env, target).1;
    }
  }

  /** When every citation of the item can be answered from the `refs`
      table (or cards are assumed filled), `get_ref_data` makes no request
      and writes nothing, counts exactly the citations whose target is not
      a card page, and reports "only card" exactly when that count is 0. */
  lemma RefDataFromTable(w: World, env: Env, assumeFilled: bool, notes: map<string, Option<string>>, anchors: seq<string>)
    requires forall m :: m in CiteMarkers(anchors) ==> Answered(w.db, env, assumeFilled, notes, m)
    ensures var n := CountNonCard(w.db, env, notes, CiteMarkers(anchors));
            RefData(w, env, assumeFilled, notes, anchors) == Step(w, Ok(RefTally(n == 0, n, |CiteMarkers(anchors)|)))
  {
    var markers := CiteMarkers(anchors);
    AllAnsweredFromMembers(w.db, env, assumeFilled, notes, markers);
    var l := RefLoop(w, env, assumeFilled, notes, markers, true, 0);
    RefLoopFromTable(w, env, assumeFilled, notes, markers, true, 0);
    TallyFromLoop(w, env, assumeFilled, notes, anchors, l.out.value.0, l.out.value.1);
  }

  lemma TallyFromLoop(w: World, env: Env, assumeFilled: bool, notes: map<string, Option<string>>, anchors: seq<string>, b: bool, n: nat)
    requires RefLoop(w, env, assumeFilled, notes, CiteMarkers(anchors), true, 0) == Step(w, Ok((b, n)))
    ensures RefData(w, env, assumeFilled, notes, anchors) == Step(w, Ok(RefTally(b, n, |CiteMarkers(anchors)|)))
  {
    RefDataUnfold(w, env, assumeFilled, notes, anchors);
  }

  /** `get_ref_data` is its loop over the citation markers from "only
      card" and a count of 0, with the number of markers as total. */
  lemma RefDataUnfold(w: World, env: Env, assumeFilled: bool, notes: map<string, Option<string>>, anchors: seq<string>)
    ensures var l := RefLoop(w, env, assumeFilled, notes, CiteMarkers(anchors), true, 0);
            RefData(w, env, assumeFilled, notes, anchors)
            == if l.out.Fail? then Step(l.w, Fail(l.out.error))
               else Step(l.w, Ok(RefTally(l.out.value.0, l.out.value.1, |CiteMarkers(anchors)|)))
  {
  }

  /** A fetch fails with `AttributeError` nowhere on the wiki. */
  ghost predicate NoAttributeErrors(env: Env)
  {
    forall h :: env.web(h) != Raises(AttributeError)
  }

  /** Classification that fails is a failed request, with its exception. */
  lemma IsCardgameRefFails(w: World, env: Env, assumeFilled: bool, href: string)
    requires IsCardgameRef(w, env, assumeFilled, href).out.Fail?
    ensures env.web(href) == Raises(IsCardgameRef(w, env, assumeFilled, href).out.error)
  {
  }

  lemma {:induction false} RefLoopCountsTable(w: World, env: Env, notes: map<string, Option<string>>,
                                              markers: seq<string>, onlyCard: bool, noncard: nat)
    requires NoAttributeErrors(env)
    ensures var r := RefLoop(w, env, false, notes, markers, onlyCard, noncard);
            r.out.Ok? ==> && r.out.value.1 == noncard + CountNonCard(r.w.db, env, notes, markers)
                          && forall m :: m in markers && Classifiable(notes, m) ==> RefLookup(r.w.db, env, notes[NoteId(m)].value).0
    decreases |markers|
  {
    var r := RefLoop(w, env, false, notes, markers, onlyCard, noncard);
    if markers != [] && r.out.Ok? {
      var m := markers[0];
      var s := RefStep(w, env, false, notes, m, onlyCard, noncard);
      RefLoopUnfold(w, env, false, notes, markers, onlyCard, noncard);
      assert s.out.Ok?;
      assert r == RefLoop(s.w, env, false, notes, markers[1..], s.out.value.0, s.out.value.1);
      RefLoopCountsTable(s.w, env, notes, markers[1..], s.out.value.0, s.out.value.1);
      if Classifiable(notes, m) {
        var target := notes[NoteId(m)].value;
        var c := IsCardgameRef(w, env, false, target);
        if c.out.Fail? {
          IsCardgameRefFails(w, env, false, target);
          assert false;
        }
        assert RefLookup(s.w.db, env, target) == (true, c.out.value);
        RefHitPersists(s.w.db, r.w.db, env.quote(target), target);
      }
      forall x | x in markers && Classifiable(notes, x)
        ensures RefLookup(r.w.db, env, notes[NoteId(x)].value).0
      {
        if x != m {
          assert x in markers[1..];
        }
      }
    }
  }

  /** Classifying from the network, with no fetch raising
      `AttributeError`: when `get_ref_data` succeeds, every classifiable
      target has a ref row afterwards, and the count is the number of
      citations whose target that table marks as not a card page, each
      citation counted once even when targets repeat. */
  lemma RefDataCountsTable(w: World, env: Env, notes: map<string, Option<string>>, anchors: seq<string>)
    requires NoAttributeErrors(env)
    ensures var r := RefData(w, env, false, notes, anchors);
            r.out.Ok? ==> && r.out.value.noncard == CountNonCard(r.w.db, env, notes, CiteMarkers(anchors))
                          && forall m :: m in CiteMarkers(anchors) && Classifiable(notes, m) ==>
                               RefLookup(r.w.db, env, notes[NoteId(m)].value).0
  {
    RefLoopCountsTable(w, env, notes, CiteMarkers(anchors), true, 0);
  }

  /** `get_ref_data`'s result: whether every counted citation was a card
      page, how many were not, and how many markers there were. */
  datatype RefTally = RefTally(onlyCard: bool, noncard: nat, total: nat)

  /** `get_ref_data` for the list item whose anchors are `anchors`. */
  function RefData(w: World, env: Env, assumeFilled: bool, notes: map<string, Option<string>>,
                   anchors: seq<string>): (r: Step<RefTally>)
    ensures Quiet(w, r.w)
    ensures r.out.Ok? ==> r.out.value.total == |CiteMarkers(anchors)|
    ensures r.out.Ok? ==> r.out.value.noncard <= CountClassifiable(notes, CiteMarkers(anchors)) <= r.out.value.total
    ensures r.out.Ok? ==> (r.out.value.onlyCard <==> r.out.value.noncard == 0)
  {
    var markers := CiteMarkers(anchors);
    var loop := RefLoop(w, env, assumeFilled, notes, markers, true, 0);
    match loop.out
    case Fail(e) => Step(loop.w, Fail(e))
    case Ok((onlyCard, noncard)) => Step(loop.w, Ok(RefTally(onlyCard, noncard, |markers|)))
  }
}
