/** `extract_evolutions` of wikimonscrape/scrape/process.py and of the older
    main.py. A single pass over the page's headings and list links, driven
    by a three-valued mode, yields the candidate links; each candidate's
    citations are counted by `get_ref_data`; the threshold policy then
    chooses which candidates become evolution links. The mode machine does
    not depend on the world, so it is stated on its own (`Scan`) and the
    world-changing part runs over its output (`Collect`). */
module Extract {
  import opened Common
  import opened Store
  import opened Web
  import opened Refs

  /** The mode register: before any evolution section, inside "Evolves
      from", inside "Evolves to". */
  datatype Mode = Whatever | Prev | Next

  /** A link that reaches `get_ref_data`, with the mode it was seen in. */
  datatype Candidate = Candidate(dir: Mode, text: string, href: string, anchors: seq<string>)

  /** The lower-case fragments that mark the two evolution headings and
      a card-game link text. */
  const EvolvesFromTag: string := "evolves from"
  const EvolvesToTag: string := "evolves to"
  const CardGameTag: string := "card game"

  predicate EvolvesFrom(text: string)
  {
    Contains(Lower(text), EvolvesFromTag)
  }

  predicate EvolvesTo(text: string)
  {
    Contains(Lower(text), EvolvesToTag)
  }

  predicate CardGameText(text: string)
  {
    Contains(Lower(text), CardGameTag)
  }

  /** The link is a candidate when seen in `mode`. */
  predicate Yields(item: Item, mode: Mode)
  {
    item.Link? && mode != Whatever && !CardGameText(item.text)
  }

  /** The mode after `item`; `None` when the item ends the scan. */
  function NextMode(item: Item, mode: Mode): (r: Option<Mode>)
    ensures item.Link? ==> r == Some(mode)
  {
    match item
    case Heading(text) =>
      if EvolvesFrom(text) then Some(Prev)
      else if EvolvesTo(text) then Some(Next)
      else if mode == Next then None
      else Some(mode)
    case Link(_, _, _) => Some(mode)
  }

  /** The candidates of `items` scanned from `mode`, in document order.
      Every candidate is a link of the page, seen inside an evolution
      section, whose text does not mention the card game. */
  function Scan(items: seq<Item>, mode: Mode): (r: seq<Candidate>)
    ensures |r| <= |items|
    ensures forall c :: c in r ==>
              c.dir != Whatever && !CardGameText(c.text) && Link(c.text, c.href, c.anchors) in items
    decreases |items|
  {
    if items == [] then []
    else
      var rest := Scan(items[1..], mode);
      if Yields(items[0], mode) then
        [Candidate(mode, items[0].text, items[0].href, items[0].anchors)] + rest
      else match NextMode(items[0], mode)
        case None => []
        case Some(m) => Scan(items[1..], m)
  }

  /** The mode after scanning `items` from `mode`; `None` when the scan
      stopped inside them. */
  function EndMode(items: seq<Item>, mode: Mode): Option<Mode>
    decreases |items|
  {
    if items == [] then Some(mode)
    else match NextMode(items[0], mode)
      case None => None
      case Some(m) => EndMode(items[1..], m)
  }

  /** What `Scan` gives for `b` after `a`: nothing once the scan stopped. */
  function ScanAfter(b: seq<Item>, after: Option<Mode>): seq<Candidate>
  {
    match after
    case None => []
    case Some(m) => Scan(b, m)
  }

  /** The scan is a stream: scanning `a + b` is scanning `a` and then `b`
      from the mode `a` ends in. */
  lemma {:induction false} ScanAppend(a: seq<Item>, b: seq<Item>, mode: Mode)
    ensures Scan(a + b, mode) == Scan(a, mode) + ScanAfter(b, EndMode(a, mode))
    decreases |a|
  {
    if a == [] {
      assert a + b == b;
    } else {
      assert (a + b)[0] == a[0];
      assert (a + b)[1..] == a[1..] + b;
      match NextMode(a[0], mode)
      case None =>
      case Some(m) =>
        ScanAppend(a[1..], b, m);
    }
  }

  /** What one heading does to the scan, wherever it stands: "evolves
      from" switches to `Prev`, "evolves to" to `Next`, any other heading
      ends the scan in `Next` and changes nothing otherwise. The heading is
      never itself a candidate. */
  lemma HeadingEffect(a: seq<Item>, text: string, b: seq<Item>, mode: Mode)
    requires EndMode(a, mode) == Some(mode)
    ensures EvolvesFrom(text) ==> Scan(a + [Heading(text)] + b, mode) == Scan(a, mode) + Scan(b, Prev)
    ensures !EvolvesFrom(text) && EvolvesTo(text) ==>
              Scan(a + [Heading(text)] + b, mode) == Scan(a, mode) + Scan(b, Next)
    ensures !EvolvesFrom(text) && !EvolvesTo(text) && mode == Next ==>
              Scan(a + [Heading(text)] + b, mode) == Scan(a, mode)
    ensures !EvolvesFrom(text) && !EvolvesTo(text) && mode != Next ==>
              Scan(a + [Heading(text)] + b, mode) == Scan(a, mode) + Scan(b, mode)
  {
    var h := [Heading(text)] + b;
    assert a + [Heading(text)] + b == a + h;
    ScanAppend(a, h, mode);
    assert h[1..] == b;
  }

  /** Before the first evolution heading nothing is a candidate: a page
      with no "evolves from"/"evolves to" heading yields none. */
  lemma {:induction false} WhateverSilent(items: seq<Item>)
    requires forall i :: 0 <= i < |items| && items[i].Heading? ==>
               !EvolvesFrom(items[i].text) && !EvolvesTo(items[i].text)
    ensures Scan(items, Whatever) == []
    decreases |items|
  {
    if items != [] {
      WhateverSilent(items[1..]);
    }
  }

  /** A collected candidate: its href and its count of non-card citations. */
  datatype Cand = Cand(href: string, noncard: nat)

  /** The hrefs of the candidates seen in `dir`. */
  function DirHrefs(cands: seq<Candidate>, dir: Mode): set<string>
  {
    set c | c in cands && c.dir == dir :: c.href
  }

  /** `acc` extends `from` with entries whose hrefs are in `hrefs` and,
      when `positive`, which have a non-card citation. */
  ghost predicate Extends(acc: seq<Cand>, from: seq<Cand>, hrefs: set<string>, positive: bool)
  {
    from <= acc && forall i :: |from| <= i < |acc| ==> acc[i].href in hrefs && (positive ==> acc[i].noncard > 0)
  }

  /** Where a tallied candidate goes: nowhere when it is card-only and
      card-only candidates are ignored, else to the end of the list of its
      direction. */
  function Place(ignoreCardOnly: bool, dir: Mode, entry: Cand, onlyCard: bool,
                 ps: seq<Cand>, ns: seq<Cand>): (seq<Cand>, seq<Cand>)
  {
    if onlyCard && ignoreCardOnly then (ps, ns)
    else if dir == Prev then (ps + [entry], ns)
    else if dir == Next then (ps, ns + [entry])
    else (ps, ns)
  }

  /** One iteration of the candidate loop of `extract_evolutions`: the
      candidate's citations are tallied; with `ignoreCardOnly` a candidate
      without a non-card citation is dropped; otherwise it is appended to
      the list of its direction. */
  function CollectOne(w: World, env: Env, assumeFilled: bool, ignoreCardOnly: bool,
                      notes: map<string, Option<string>>, cand: Candidate,
                      ps: seq<Cand>, ns: seq<Cand>): (r: Step<(seq<Cand>, seq<Cand>)>)
    ensures Quiet(w, r.w)
    ensures var t := RefData(w, env, assumeFilled, notes, cand.anchors);
            && r.w == t.w
            && (t.out.Fail? ==> r.out == Fail(t.out.error))
            && (t.out.Ok? ==>
                  var entry := Cand(cand.href, t.out.value.noncard);
                  var dropped := t.out.value.onlyCard && ignoreCardOnly;
                  && (dropped || cand.dir == Whatever ==> r.out == Ok((ps, ns)))
                  && (!dropped && cand.dir == Prev ==> r.out == Ok((ps + [entry], ns)))
                  && (!dropped && cand.dir == Next ==> r.out == Ok((ps, ns + [entry]))))
  {
    var t := RefData(w, env, assumeFilled, notes, cand.anchors);
    match t.out
    case Fail(e) => Step(t.w, Fail(e))
    case Ok(tally) => Step(t.w, Ok(Place(ignoreCardOnly, cand.dir, Cand(cand.href, tally.noncard), tally.onlyCard, ps, ns)))
  }

  /** One iteration appends only to the list of the candidate's direction
      and, with `ignoreCardOnly`, only a candidate with a non-card
      citation. */
  lemma CollectOneExtends(w: World, env: Env, assumeFilled: bool, ignoreCardOnly: bool,
                          notes: map<string, Option<string>>, cand: Candidate, ps: seq<Cand>, ns: seq<Cand>)
    ensures var r := CollectOne(w, env, assumeFilled, ignoreCardOnly, notes, cand, ps, ns);
            r.out.Ok? ==>
              && Extends(r.out.value.0, ps, DirHrefs([cand], Prev), ignoreCardOnly)
              && Extends(r.out.value.1, ns, DirHrefs([cand], Next), ignoreCardOnly)
              && |r.out.value.0| + |r.out.value.1| <= |ps| + |ns| + 1
  {
    var t := RefData(w, env, assumeFilled, notes, cand.anchors);
    if t.out.Ok? {
      var tally := t.out.value;
      var entry := Cand(cand.href, tally.noncard);
      var placed := Place(ignoreCardOnly, cand.dir, entry, tally.onlyCard, ps, ns);
      assert CollectOne(w, env, assumeFilled, ignoreCardOnly, notes, cand, ps, ns).out == Ok(placed);
      assert cand in [cand];
      assert cand.dir == Prev ==> cand.href in DirHrefs([cand], Prev);
      assert cand.dir == Next ==> cand.href in DirHrefs([cand], Next);
    }
  }

  /** The citation tallies of `cands`, one `get_ref_data` per candidate in
      order, threading the world; the first failure ends the run. This is
      the part of the candidate loop that does not depend on directions or
      on the card-only filter. */
  function Tallies(w: World, env: Env, assumeFilled: bool, notes: map<string, Option<string>>,
                   cands: seq<Candidate>): (r: Step<seq<RefTally>>)
    ensures Quiet(w, r.w)
    ensures r.out.Ok? ==> |r.out.value| == |cands|
    decreases |cands|
  {
    if cands == [] then Step(w, Ok([]))
    else
      var t := RefData(w, env, assumeFilled, notes, cands[0].anchors);
      match t.out
      case Fail(e) => Step(t.w, Fail(e))
      case Ok(tally) =>
        var rest := Tallies(t.w, env, assumeFilled, notes, cands[1..]);
        QuietTrans(w, t.w, rest.w);
        match rest.out
        case Fail(e) => rest
        case Ok(tallies) => Step(rest.w, Ok([tally] + tallies))
  }

  /** Each tally belongs to its candidate: its total is the number of the
      candidate's citation markers, and it is "only card" exactly when it
      counts no non-card citation. */
  lemma {:induction false} TalliesEach(w: World, env: Env, assumeFilled: bool, notes: map<string, Option<string>>,
                                       cands: seq<Candidate>)
    ensures var r := Tallies(w, env, assumeFilled, notes, cands);
            r.out.Ok? ==> forall i :: 0 <= i < |cands| ==>
              && r.out.value[i].total == |CiteMarkers(cands[i].anchors)|
              && (r.out.value[i].onlyCard <==> r.out.value[i].noncard == 0)
    decreases |cands|
  {
    if cands != [] {
      var t := RefData(w, env, assumeFilled, notes, cands[0].anchors);
      TalliesUnfold(w, env, assumeFilled, notes, cands);
      if t.out.Ok? {
        TalliesEach(t.w, env, assumeFilled, notes, cands[1..]);
        var rest := Tallies(t.w, env, assumeFilled, notes, cands[1..]);
        if rest.out.Ok? {
          TalliesCons(cands, t.out.value, rest.out.value);
        }
      }
    }
  }

  /** The tally of the first candidate before those of the others. */
  lemma TalliesCons(cands: seq<Candidate>, x: RefTally, xs: seq<RefTally>)
    requires cands != [] && |xs| == |cands| - 1
    requires x.total == |CiteMarkers(cands[0].anchors)| && (x.onlyCard <==> x.noncard == 0)
    requires forall i :: 0 <= i < |xs| ==>
               xs[i].total == |CiteMarkers(cands[1..][i].anchors)| && (xs[i].onlyCard <==> xs[i].noncard == 0)
    ensures var all := [x] + xs;
            forall i :: 0 <= i < |cands| ==>
              all[i].total == |CiteMarkers(cands[i].anchors)| && (all[i].onlyCard <==> all[i].noncard == 0)
  {
    var all := [x] + xs;
    assert forall i :: 1 <= i < |cands| ==> cands[i] == cands[1..][i - 1] && all[i] == xs[i - 1];
  }

  /** `CollectOne` appends each list's `Entry` of the candidate's tally. */
  lemma CollectOneEntry(w: World, env: Env, assumeFilled: bool, ignoreCardOnly: bool,
                        notes: map<string, Option<string>>, cand: Candidate, ps: seq<Cand>, ns: seq<Cand>)
    ensures var s := CollectOne(w, env, assumeFilled, ignoreCardOnly, notes, cand, ps, ns);
            var t := RefData(w, env, assumeFilled, notes, cand.anchors);
            && s.w == t.w
            && (t.out.Fail? ==> s.out == Fail(t.out.error))
            && (t.out.Ok? ==> s.out == Ok((ps + Entry(cand, t.out.value, Prev, ignoreCardOnly),
                                           ns + Entry(cand, t.out.value, Next, ignoreCardOnly))))
  {
    var t := RefData(w, env, assumeFilled, notes, cand.anchors);
    if t.out.Ok? {
      assert ps + [] == ps && ns + [] == ns;
    }
  }

  /** `Tallies` over a non-empty list: the first tally, then the rest. */
  lemma TalliesUnfold(w: World, env: Env, assumeFilled: bool, notes: map<string, Option<string>>, cands: seq<Candidate>)
    requires cands != []
    ensures var t := RefData(w, env, assumeFilled, notes, cands[0].anchors);
            Tallies(w, env, assumeFilled, notes, cands)
            == if t.out.Fail? then Step(t.w, Fail(t.out.error))
               else
                 var rest := Tallies(t.w, env, assumeFilled, notes, cands[1..]);
                 if rest.out.Fail? then rest else Step(rest.w, Ok([t.out.value] + rest.out.value))
  {
  }

  /** What one tallied candidate adds to the list of `dir`: itself with its
      count, when it is of that direction and not dropped as card-only. */
  function Entry(cand: Candidate, tally: RefTally, dir: Mode, ignoreCardOnly: bool): seq<Cand>
  {
    if cand.dir == dir && !(tally.onlyCard && ignoreCardOnly) then [Cand(cand.href, tally.noncard)] else []
  }

  /** The entries a direction's list receives from tallied candidates: one
      per candidate of that direction, in order, except card-only ones
      when those are ignored. */
  function Placed(cands: seq<Candidate>, tallies: seq<RefTally>, dir: Mode, ignoreCardOnly: bool): (r: seq<Cand>)
    requires |tallies| == |cands|
    ensures |r| <= |cands|
    ensures forall e :: e in r ==> e.href in DirHrefs(cands, dir)
    ensures ignoreCardOnly && (forall i :: 0 <= i < |tallies| ==> (tallies[i].onlyCard <==> tallies[i].noncard == 0)) ==>
              forall e :: e in r ==> e.noncard > 0
    decreases |cands|
  {
    if cands == [] then []
    else
      var rest := Placed(cands[1..], tallies[1..], dir, ignoreCardOnly);
      assert forall e :: e in rest ==> e.href in DirHrefs(cands, dir) by {
        assert forall c :: c in cands[1..] ==> c in cands;
      }
      assert cands[0] in cands;
      Entry(cands[0], tallies[0], dir, ignoreCardOnly) + rest
  }

  /** The candidate loop of `extract_evolutions` over `cands`, appending to
      the `prev`/`next` lists `ps`/`ns`. Only candidates of the matching
      direction are appended, and with `ignoreCardOnly` only those with a
      non-card citation. */
  function Collect(w: World, env: Env, assumeFilled: bool, ignoreCardOnly: bool,
                   notes: map<string, Option<string>>, cands: seq<Candidate>,
                   ps: seq<Cand>, ns: seq<Cand>): (r: Step<(seq<Cand>, seq<Cand>)>)
    ensures Quiet(w, r.w)
    decreases |cands|
  {
    if cands == [] then Step(w, Ok((ps, ns)))
    else
      var s := CollectOne(w, env, assumeFilled, ignoreCardOnly, notes, cands[0], ps, ns);
      match s.out
      case Fail(e) => Step(s.w, Fail(e))
      case Ok((ps', ns')) =>
        var r := Collect(s.w, env, assumeFilled, ignoreCardOnly, notes, cands[1..], ps', ns');
        QuietTrans(w, s.w, r.w);
        r
  }

  /** `Placed` over a non-empty list: the first candidate's entry, if any,
      then the rest. */
  lemma PlacedCons(cands: seq<Candidate>, t0: RefTally, ts: seq<RefTally>, dir: Mode, ignoreCardOnly: bool)
    requires cands != [] && |ts| == |cands| - 1
    ensures Placed(cands, [t0] + ts, dir, ignoreCardOnly) == Entry(cands[0], t0, dir, ignoreCardOnly) + Placed(cands[1..], ts, dir, ignoreCardOnly)
  {
    assert ([t0] + ts)[0] == t0 && ([t0] + ts)[1..] == ts;
  }

  /** The candidate loop is "tally every candidate, then place": its
      requests and writes are those of `Tallies`, it fails exactly when
      they do, and each list receives, in order, one entry per candidate
      of its direction whose tally is not dropped as card-only. */
  lemma {:induction false} CollectTallies(w: World, env: Env, assumeFilled: bool, ignoreCardOnly: bool,
                                          notes: map<string, Option<string>>, cands: seq<Candidate>,
                                          ps: seq<Cand>, ns: seq<Cand>)
    ensures var r := Collect(w, env, assumeFilled, ignoreCardOnly, notes, cands, ps, ns);
            var t := Tallies(w, env, assumeFilled, notes, cands);
            && r.w == t.w
            && (t.out.Fail? ==> r.out == Fail(t.out.error))
            && (t.out.Ok? ==> r.out == Ok((ps + Placed(cands, t.out.value, Prev, ignoreCardOnly),
                                           ns + Placed(cands, t.out.value, Next, ignoreCardOnly))))
    decreases |cands|
  {
    if cands == [] {
      assert ps + [] == ps && ns + [] == ns;
    } else {
      var s := CollectOne(w, env, assumeFilled, ignoreCardOnly, notes, cands[0], ps, ns);
      var t0 := RefData(w, env, assumeFilled, notes, cands[0].anchors);
      CollectOneEntry(w, env, assumeFilled, ignoreCardOnly, notes, cands[0], ps, ns);
      TalliesUnfold(w, env, assumeFilled, notes, cands);
      var whole := Collect(w, env, assumeFilled, ignoreCardOnly, notes, cands, ps, ns);
      if s.out.Ok? {
        var x := t0.out.value;
        var eP, eN := Entry(cands[0], x, Prev, ignoreCardOnly), Entry(cands[0], x, Next, ignoreCardOnly);
        assert whole == Collect(s.w, env, assumeFilled, ignoreCardOnly, notes, cands[1..], ps + eP, ns + eN);
        CollectTallies(s.w, env, assumeFilled, ignoreCardOnly, notes, cands[1..], ps + eP, ns + eN);
        var t := Tallies(s.w, env, assumeFilled, notes, cands[1..]);
        if t.out.Ok? {
          var restP := Placed(cands[1..], t.out.value, Prev, ignoreCardOnly);
          var restN := Placed(cands[1..], t.out.value, Next, ignoreCardOnly);
          PlacedCons(cands, x, t.out.value, Prev, ignoreCardOnly);
          PlacedCons(cands, x, t.out.value, Next, ignoreCardOnly);
          AppendAssoc(ps, eP, restP);
          AppendAssoc(ns, eN, restN);
          assert whole == Step(t.w, Ok((ps + (eP + restP), ns + (eN + restN))));
        }
      } else {
        assert whole == Step(s.w, Fail(s.out.error));
      }
    }
  }

  /** The loop puts each candidate in the list of its own direction. */
  lemma CollectDirections(w: World, env: Env, assumeFilled: bool, ignoreCardOnly: bool,
                          notes: map<string, Option<string>>, cands: seq<Candidate>)
    ensures var c := Collect(w, env, assumeFilled, ignoreCardOnly, notes, cands, [], []);
            c.out.Ok? ==> && (forall e :: e in c.out.value.0 ==> e.href in DirHrefs(cands, Prev))
                          && (forall e :: e in c.out.value.1 ==> e.href in DirHrefs(cands, Next))
  {
    CollectTallies(w, env, assumeFilled, ignoreCardOnly, notes, cands, [], []);
    var t := Tallies(w, env, assumeFilled, notes, cands);
    if t.out.Ok? {
      var ps := Placed(cands, t.out.value, Prev, ignoreCardOnly);
      var ns := Placed(cands, t.out.value, Next, ignoreCardOnly);
      assert [] + ps == ps && [] + ns == ns;
    }
  }

  /** `Collect` over a non-empty list is one `CollectOne` and the rest. */
  lemma CollectUnfold(w: World, env: Env, assumeFilled: bool, ignoreCardOnly: bool,
                      notes: map<string, Option<string>>, cand: Candidate, rest: seq<Candidate>,
                      ps: seq<Cand>, ns: seq<Cand>)
    ensures var s := CollectOne(w, env, assumeFilled, ignoreCardOnly, notes, cand, ps, ns);
            Collect(w, env, assumeFilled, ignoreCardOnly, notes, [cand] + rest, ps, ns)
            == if s.out.Fail? then Step(s.w, Fail(s.out.error))
               else Collect(s.w, env, assumeFilled, ignoreCardOnly, notes, rest, s.out.value.0, s.out.value.1)
  {
    assert ([cand] + rest)[0] == cand && ([cand] + rest)[1..] == rest;
  }

  /** `Scan` from position `i`: a yielding link is the first candidate,
      a heading moves to its next mode or ends the scan. */
  lemma ScanUnfold(items: seq<Item>, i: nat, mode: Mode)
    requires i < |items|
    ensures Yields(items[i], mode) ==>
              Scan(items[i..], mode) == [Candidate(mode, items[i].text, items[i].href, items[i].anchors)] + Scan(items[i + 1..], mode)
    ensures !Yields(items[i], mode) ==>
              Scan(items[i..], mode) == match NextMode(items[i], mode)
                                        case None => []
                                        case Some(m) => Scan(items[i + 1..], m)
  {
    assert items[i..][0] == items[i] && items[i..][1..] == items[i + 1..];
  }

  /** The candidate loop at a yielding link of position `i`: that
      candidate's `CollectOne`, then, unless it failed, the loop over the
      candidates after it. */
  lemma CollectAt(w: World, env: Env, assumeFilled: bool, ignoreCardOnly: bool,
                  notes: map<string, Option<string>>, items: seq<Item>, i: nat, mode: Mode,
                  ps: seq<Cand>, ns: seq<Cand>)
    requires i < |items| && Yields(items[i], mode)
    ensures var cand := Candidate(mode, items[i].text, items[i].href, items[i].anchors);
            var s := CollectOne(w, env, assumeFilled, ignoreCardOnly, notes, cand, ps, ns);
            Collect(w, env, assumeFilled, ignoreCardOnly, notes, Scan(items[i..], mode), ps, ns)
            == if s.out.Fail? then Step(s.w, Fail(s.out.error))
               else Collect(s.w, env, assumeFilled, ignoreCardOnly, notes, Scan(items[i + 1..], mode), s.out.value.0, s.out.value.1)
  {
    var cand := Candidate(mode, items[i].text, items[i].href, items[i].anchors);
    ScanUnfold(items, i, mode);
    CollectUnfold(w, env, assumeFilled, ignoreCardOnly, notes, cand, Scan(items[i + 1..], mode), ps, ns);
  }

  /** The threshold test for a candidate of a direction with `n`
      candidates: enough non-card citations, or (process.py only) few
      enough candidates in that direction. */
  predicate Accepts(cfg: Config, c: Cand, n: int)
    ensures c.noncard >= cfg.minRefs ==> Accepts(cfg, c, n)
    ensures cfg.policy.MinRefsOnly? && Accepts(cfg, c, n) ==> c.noncard >= cfg.minRefs
  {
    match cfg.policy
    case LowCountBypass(low) => c.noncard >= cfg.minRefs || n <= low
    case MinRefsOnly => c.noncard >= cfg.minRefs
  }

  /** The candidates that pass the threshold, in order, duplicates kept. */
  function Kept(cands: seq<Cand>, cfg: Config, n: int): (r: seq<Cand>)
    ensures |r| <= |cands|
  {
    if cands == [] then []
    else if Accepts(cfg, cands[0], n) then [cands[0]] + Kept(cands[1..], cfg, n)
    else Kept(cands[1..], cfg, n)
  }

  /** `Kept` is a filter: a subsequence holding every accepted candidate
      as often as the input does, and nothing else. */
  lemma {:induction false} KeptFilters(cands: seq<Cand>, cfg: Config, n: int)
    ensures SubSeq(Kept(cands, cfg, n), cands)
    ensures forall c :: c in Kept(cands, cfg, n) <==> c in cands && Accepts(cfg, c, n)
    ensures forall c :: multiset(Kept(cands, cfg, n))[c] == if Accepts(cfg, c, n) then multiset(cands)[c] else 0
    decreases |cands|
  {
    if cands != [] {
      var rest := Kept(cands[1..], cfg, n);
      KeptFilters(cands[1..], cfg, n);
      SubSeqCons(cands[0], rest, cands[1..]);
      assert cands == [cands[0]] + cands[1..];
    }
  }

  function Hrefs(cs: seq<Cand>): (r: seq<string>)
    ensures |r| == |cs|
    ensures forall i :: 0 <= i < |cs| ==> r[i] == cs[i].href
  {
    if cs == [] then [] else [cs[0].href] + Hrefs(cs[1..])
  }

  /** The accepted hrefs of one direction (the list comprehensions at the
      end of `extract_evolutions`). */
  function Select(cands: seq<Cand>, cfg: Config): (r: seq<string>)
    ensures |r| <= |cands|
  {
    Hrefs(Kept(cands, cfg, |cands|))
  }

  /** Every selected href belongs to an accepted candidate, and every
      accepted candidate's href is selected. */
  lemma SelectSound(cands: seq<Cand>, cfg: Config)
    ensures forall h :: h in Select(cands, cfg) ==> exists c :: c in cands && c.href == h && Accepts(cfg, c, |cands|)
    ensures forall c :: c in cands && Accepts(cfg, c, |cands|) ==> c.href in Select(cands, cfg)
  {
    var kept := Kept(cands, cfg, |cands|);
    var r := Hrefs(kept);
    KeptFilters(cands, cfg, |cands|);
    assert forall h :: h in r ==> exists i :: 0 <= i < |kept| && kept[i].href == h;
    forall c | c in cands && Accepts(cfg, c, |cands|)
      ensures c.href in r
    {
      var i :| 0 <= i < |kept| && kept[i] == c;
      assert r[i] == c.href;
    }
  }

  /** A candidate is accepted exactly when it passes the threshold of its
      direction, and acceptance keeps order and duplicates. */
  lemma SelectAccepts(cands: seq<Cand>, cfg: Config, c: Cand)
    ensures c in Kept(cands, cfg, |cands|) <==> c in cands && Accepts(cfg, c, |cands|)
    ensures SubSeq(Select(cands, cfg), Hrefs(cands))
  {
    KeptFilters(cands, cfg, |cands|);
    HrefsSubSeq(Kept(cands, cfg, |cands|), cands);
  }

  /** With the low-count bypass, a direction with at most `lowEvoCount`
      candidates keeps them all, whatever their counts. */
  lemma {:induction false} LowCountKeepsAll(cands: seq<Cand>, cfg: Config, n: int)
    requires cfg.policy.LowCountBypass? && n <= cfg.policy.lowEvoCount
    ensures Kept(cands, cfg, n) == cands
    decreases |cands|
  {
    if cands != [] {
      LowCountKeepsAll(cands[1..], cfg, n);
    }
  }

  /** A subsequence of candidates has a subsequence of hrefs. */
  lemma {:induction false} HrefsSubSeq(a: seq<Cand>, b: seq<Cand>)
    requires SubSeq(a, b)
    ensures SubSeq(Hrefs(a), Hrefs(b))
    decreases |b|
  {
    if a != [] {
      assert Hrefs(b)[1..] == Hrefs(b[1..]);
      assert Hrefs(a)[1..] == Hrefs(a[1..]);
      if SubSeq(a, b[1..]) {
        HrefsSubSeq(a, b[1..]);
      } else {
        HrefsSubSeq(a[1..], b[1..]);
      }
    }
  }

  /** main.py's rule keeps a subsequence of what process.py's rule keeps
      for the same candidates and the same minimum. */
  lemma {:induction false} LegacyKeptSubSeq(cands: seq<Cand>, legacy: Config, current: Config, n: int)
    requires legacy.policy.MinRefsOnly? && current.policy.LowCountBypass? && legacy.minRefs == current.minRefs
    ensures SubSeq(Kept(cands, legacy, n), Kept(cands, current, n))
    decreases |cands|
  {
    if cands != [] {
      LegacyKeptSubSeq(cands[1..], legacy, current, n);
      var l := Kept(cands[1..], legacy, n);
      var c := Kept(cands[1..], current, n);
      if Accepts(legacy, cands[0], n) {
        assert Accepts(current, cands[0], n);
        SubSeqCons(cands[0], l, c);
      } else if Accepts(current, cands[0], n) {
        SubSeqCons(cands[0], l, c);
      }
    }
  }

  /** A link of the page whose text does not mention the card game. */
  ghost predicate PageLink(items: seq<Item>, href: string)
  {
    exists t, a :: Link(t, href, a) in items && !CardGameText(t)
  }

  /** Every candidate href is a page link. */
  lemma CandidatesArePageLinks(items: seq<Item>, dir: Mode)
    ensures forall h :: h in DirHrefs(Scan(items, Whatever), dir) ==> PageLink(items, h)
  {
    forall h | h in DirHrefs(Scan(items, Whatever), dir)
      ensures PageLink(items, h)
    {
      var c :| c in Scan(items, Whatever) && c.dir == dir && c.href == h;
      assert Link(c.text, c.href, c.anchors) in items;
    }
  }

  /** `extract_evolutions` on a parsed page: the accepted previous and next
      evolution links. process.py reads the page's `h1` when both lists
      are empty, which fails on a page without one. */
  function ExtractEvolutions(w: World, env: Env, cfg: Config, doc: Doc): (r: Step<(seq<string>, seq<string>)>)
    ensures Quiet(w, r.w)
    ensures r.out.Ok? ==> forall h :: h in r.out.value.0 ==> PageLink(doc.items, h)
    ensures r.out.Ok? ==> forall h :: h in r.out.value.1 ==> PageLink(doc.items, h)
    ensures r.out.Ok? ==> forall h :: h in r.out.value.0 ==> h in DirHrefs(Scan(doc.items, Whatever), Prev)
    ensures r.out.Ok? ==> forall h :: h in r.out.value.1 ==> h in DirHrefs(Scan(doc.items, Whatever), Next)
  {
    var cands := Scan(doc.items, Whatever);
    var c := Collect(w, env, cfg.assumeCardsFilled, cfg.ignoreCardOnly, doc.notes, cands, [], []);
    match c.out
    case Fail(e) => Step(c.w, Fail(e))
    case Ok((ps, ns)) =>
      var prev := Select(ps, cfg);
      var next := Select(ns, cfg);
      CollectDirections(w, env, cfg.assumeCardsFilled, cfg.ignoreCardOnly, doc.notes, cands);
      CandidatesArePageLinks(doc.items, Prev);
      CandidatesArePageLinks(doc.items, Next);
      SelectSound(ps, cfg);
      SelectSound(ns, cfg);
      assert forall h :: h in prev ==> h in DirHrefs(cands, Prev);
      assert forall h :: h in next ==> h in DirHrefs(cands, Next);
      if cfg.policy.LowCountBypass? && prev == [] && next == [] && !doc.hasH1 then Step(c.w, Fail(AttributeError))
      else Step(c.w, Ok((prev, next)))
  }

  /** `extract_evolutions` is "tally every candidate, place, then
      threshold": its requests and writes are those of `Tallies` over the
      page's candidates; when those succeed, each direction is `Select` of
      the entries `Placed` gives it (card-only ones dropped when ignored),
      and process.py fails on the `h1` read exactly when both come out
      empty on a page without `h1`. */
  lemma ExtractTallies(w: World, env: Env, cfg: Config, doc: Doc)
    ensures var cands := Scan(doc.items, Whatever);
            var t := Tallies(w, env, cfg.assumeCardsFilled, doc.notes, cands);
            var r := ExtractEvolutions(w, env, cfg, doc);
            && r.w == t.w
            && (t.out.Fail? ==> r.out == Fail(t.out.error))
            && (t.out.Ok? ==>
                  var prev := Select(Placed(cands, t.out.value, Prev, cfg.ignoreCardOnly), cfg);
                  var next := Select(Placed(cands, t.out.value, Next, cfg.ignoreCardOnly), cfg);
                  r.out == if cfg.policy.LowCountBypass? && prev == [] && next == [] && !doc.hasH1
                           then Fail(AttributeError) else Ok((prev, next)))
  {
    var cands := Scan(doc.items, Whatever);
    CollectTallies(w, env, cfg.assumeCardsFilled, cfg.ignoreCardOnly, doc.notes, cands, [], []);
    var t := Tallies(w, env, cfg.assumeCardsFilled, doc.notes, cands);
    if t.out.Ok? {
      var ps := Placed(cands, t.out.value, Prev, cfg.ignoreCardOnly);
      var ns := Placed(cands, t.out.value, Next, cfg.ignoreCardOnly);
      assert [] + ps == ps && [] + ns == ns;
    }
  }

  /** main.py against process.py on the same page from the same world:
      both do the same requests and writes, and when process.py succeeds
      so does main.py, with a subsequence of its links in each
      direction. */
  lemma LegacySubsequence(w: World, env: Env, legacy: Config, current: Config, doc: Doc)
    requires legacy.policy.MinRefsOnly? && current.policy.LowCountBypass?
    requires legacy.minRefs == current.minRefs
    requires legacy.ignoreCardOnly == current.ignoreCardOnly && legacy.assumeCardsFilled == current.assumeCardsFilled
    ensures ExtractEvolutions(w, env, legacy, doc).w == ExtractEvolutions(w, env, current, doc).w
    ensures ExtractEvolutions(w, env, legacy, doc).out.Fail? ==> ExtractEvolutions(w, env, current, doc).out.Fail?
    ensures var l := ExtractEvolutions(w, env, legacy, doc).out;
            var c := ExtractEvolutions(w, env, current, doc).out;
            c.Ok? ==> l.Ok? && SubSeq(l.value.0, c.value.0) && SubSeq(l.value.1, c.value.1)
  {
    var cands := Scan(doc.items, Whatever);
    var c := Collect(w, env, current.assumeCardsFilled, current.ignoreCardOnly, doc.notes, cands, [], []);
    if c.out.Ok? {
      var (ps, ns) := c.out.value;
      LegacyKeptSubSeq(ps, legacy, current, |ps|);
      HrefsSubSeq(Kept(ps, legacy, |ps|), Kept(ps, current, |ps|));
      LegacyKeptSubSeq(ns, legacy, current, |ns|);
      HrefsSubSeq(Kept(ns, legacy, |ns|), Kept(ns, current, |ns|));
    }
  }

  /** The candidates with at least one non-card citation. */
  function Positive(cs: seq<Cand>): seq<Cand>
  {
    if cs == [] then []
    else (if cs[0].noncard > 0 then [cs[0]] else []) + Positive(cs[1..])
  }

  lemma {:induction false} PositiveAppend(a: seq<Cand>, b: seq<Cand>)
    ensures Positive(a + b) == Positive(a) + Positive(b)
    decreases |a|
  {
    if a == [] {
      assert a + b == b;
    } else {
      assert (a + b)[0] == a[0];
      assert (a + b)[1..] == a[1..] + b;
      PositiveAppend(a[1..], b);
    }
  }

  /** Placing a candidate with the card-only filter on, into the filtered
      lists, gives the filtered lists of placing it with the filter off. */
  lemma PlaceCardFilter(dir: Mode, entry: Cand, onlyCard: bool, ps: seq<Cand>, ns: seq<Cand>)
    requires onlyCard <==> entry.noncard == 0
    ensures var all := Place(false, dir, entry, onlyCard, ps, ns);
            Place(true, dir, entry, onlyCard, Positive(ps), Positive(ns)) == (Positive(all.0), Positive(all.1))
  {
    PositiveAppend(ps, [entry]);
    PositiveAppend(ns, [entry]);
    assert [entry][1..] == [];
    assert Positive([entry]) == if entry.noncard > 0 then [entry] else [];
    assert Positive(ps) + [] == Positive(ps);
    assert Positive(ns) + [] == Positive(ns);
  }

  /** One loop iteration with the card-only filter on, from the filtered
      lists, against one with it off: the same requests and writes, and
      the filtered lists are the unfiltered ones without card-only
      entries. */
  lemma CollectOneCardFilter(w: World, env: Env, assumeFilled: bool,
                             notes: map<string, Option<string>>, cand: Candidate,
                             ps: seq<Cand>, ns: seq<Cand>)
    ensures var filtered := CollectOne(w, env, assumeFilled, true, notes, cand, Positive(ps), Positive(ns));
            var all := CollectOne(w, env, assumeFilled, false, notes, cand, ps, ns);
            && filtered.w == all.w
            && (all.out.Ok? ==> filtered.out == Ok((Positive(all.out.value.0), Positive(all.out.value.1))))
            && (all.out.Fail? ==> filtered.out == all.out)
  {
    var t := RefData(w, env, assumeFilled, notes, cand.anchors);
    if t.out.Ok? {
      PlaceCardFilter(cand.dir, Cand(cand.href, t.out.value.noncard), t.out.value.onlyCard, ps, ns);
    }
  }

  /** Dropping card-only candidates early changes neither the requests and
      writes of the loop nor, up to those candidates, what it collects. */
  lemma {:induction false} CollectCardFilter(w: World, env: Env, assumeFilled: bool,
                                             notes: map<string, Option<string>>, cands: seq<Candidate>,
                                             ps: seq<Cand>, ns: seq<Cand>)
    ensures var filtered := Collect(w, env, assumeFilled, true, notes, cands, Positive(ps), Positive(ns));
            var all := Collect(w, env, assumeFilled, false, notes, cands, ps, ns);
            && filtered.w == all.w
            && (all.out.Ok? ==> filtered.out == Ok((Positive(all.out.value.0), Positive(all.out.value.1))))
            && (all.out.Fail? ==> filtered.out == all.out)
    decreases |cands|
  {
    if cands != [] {
      CollectOneCardFilter(w, env, assumeFilled, notes, cands[0], ps, ns);
      var one := CollectOne(w, env, assumeFilled, false, notes, cands[0], ps, ns);
      if one.out.Ok? {
        CollectCardFilter(one.w, env, assumeFilled, notes, cands[1..], one.out.value.0, one.out.value.1);
      }
    }
  }

  /** With a positive minimum, the minimum alone already drops every
      candidate that has no non-card citation. */
  lemma {:induction false} MinRefsDropsCardOnly(cs: seq<Cand>, cfg: Config, n: int)
    requires cfg.policy.MinRefsOnly? && cfg.minRefs >= 1
    ensures Kept(Positive(cs), cfg, n) == Kept(cs, cfg, n)
    decreases |cs|
  {
    if cs != [] {
      MinRefsDropsCardOnly(cs[1..], cfg, n);
      var p := Positive(cs[1..]);
      if cs[0].noncard > 0 {
        assert Positive(cs) == [cs[0]] + p;
        assert ([cs[0]] + p)[0] == cs[0];
        assert ([cs[0]] + p)[1..] == p;
      } else {
        assert Positive(cs) == p;
        assert !Accepts(cfg, cs[0], n);
      }
    }
  }

  /** In main.py, with `MIN_REFERENCES >= 1` the card-only filter is
      implied: turning `IGNORE_CARD_ONLY_REFS` off changes nothing. */
  lemma CardFilterImplied(w: World, env: Env, cfg: Config, doc: Doc)
    requires cfg.policy.MinRefsOnly? && cfg.minRefs >= 1
    ensures ExtractEvolutions(w, env, cfg.(ignoreCardOnly := true), doc) ==
            ExtractEvolutions(w, env, cfg.(ignoreCardOnly := false), doc)
  {
    var cands := Scan(doc.items, Whatever);
    CollectCardFilter(w, env, cfg.assumeCardsFilled, doc.notes, cands, [], []);
    var all := Collect(w, env, cfg.assumeCardsFilled, false, doc.notes, cands, [], []);
    if all.out.Ok? {
      var (ps, ns) := all.out.value;
      var on := cfg.(ignoreCardOnly := true);
      var off := cfg.(ignoreCardOnly := false);
      MinRefsDropsCardOnly(ps, on, |ps|);
      MinRefsDropsCardOnly(ns, on, |ns|);
      assert Kept(Positive(ps), on, |Positive(ps)|) == Kept(ps, off, |ps|) by {
        KeptIgnoresCount(Positive(ps), on, |Positive(ps)|, |ps|);
        KeptSameRule(ps, on, off, |ps|);
      }
      assert Kept(Positive(ns), on, |Positive(ns)|) == Kept(ns, off, |ns|) by {
        KeptIgnoresCount(Positive(ns), on, |Positive(ns)|, |ns|);
        KeptSameRule(ns, on, off, |ns|);
      }
    }
  }

  /** Under main.py's rule the direction's size plays no part. */
  lemma {:induction false} KeptIgnoresCount(cs: seq<Cand>, cfg: Config, n: int, m: int)
    requires cfg.policy.MinRefsOnly?
    ensures Kept(cs, cfg, n) == Kept(cs, cfg, m)
    decreases |cs|
  {
    if cs != [] {
      KeptIgnoresCount(cs[1..], cfg, n, m);
    }
  }

  /** Configurations with the same threshold rule keep the same
      candidates. */
  lemma {:induction false} KeptSameRule(cs: seq<Cand>, a: Config, b: Config, n: int)
    requires a.policy == b.policy && a.minRefs == b.minRefs
    ensures Kept(cs, a, n) == Kept(cs, b, n)
    decreases |cs|
  {
    if cs != [] {
      KeptSameRule(cs[1..], a, b, n);
    }
  }
}
