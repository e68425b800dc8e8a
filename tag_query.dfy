/** `get_instance_ids_by_tag_values`, which both access scripts define with the
    same text: parse the comma-separated tag values, build the single tag
    filter, page through `describe_instances`, keep the ids of running
    instances and drop duplicates. */
module TagQuery {
  import opened Wrappers
  import opened Aws
  import Text

  /** Strip each piece and keep the pieces that are not blank, in order. */
  function StripNonBlank(pieces: seq<string>): (r: seq<string>)
    ensures |r| <= |pieces|
    ensures forall k :: 0 <= k < |r| ==> r[k] != "" && Text.IsStripped(r[k])
  {
    if |pieces| == 0 then []
    else
      var v := Text.Strip(pieces[0]);
      (if v != "" then [v] else []) + StripNonBlank(pieces[1..])
  }

  /** The tag values of a comma-separated list: `[v.strip() for v in csv.split(",") if v.strip()]`. */
  function ParseTagValues(csv: string): (r: seq<string>)
    ensures forall k :: 0 <= k < |r| ==> r[k] != "" && Text.IsStripped(r[k]) && ',' !in r[k]
  {
    var pieces := Text.Split(csv, ',');
    var r := StripNonBlank(pieces);
    StripNonBlankKeeps(pieces, ',');
    r
  }

  /** A character absent from every piece is absent from every kept value. */
  lemma {:induction false} StripNonBlankKeeps(pieces: seq<string>, c: char)
    requires forall k :: 0 <= k < |pieces| ==> c !in pieces[k]
    ensures forall k :: 0 <= k < |StripNonBlank(pieces)| ==> c !in StripNonBlank(pieces)[k]
  {
    if |pieces| > 0 {
      StripNonBlankKeeps(pieces[1..], c);
      StripKeeps(pieces[0], c);
      var v := Text.Strip(pieces[0]);
      var keep := if v != "" then [v] else [];
      assert StripNonBlank(pieces) == keep + StripNonBlank(pieces[1..]);
    }
  }

  /** `strip()` only removes characters. */
  lemma StripKeeps(s: string, c: char)
    requires c !in s
    ensures c !in Text.Strip(s)
  {
    var i := Text.StripInfix(s);
  }

  lemma {:induction false} StripNonBlankConcat(p: seq<string>, q: seq<string>)
    ensures StripNonBlank(p + q) == StripNonBlank(p) + StripNonBlank(q)
  {
    if |p| == 0 {
      assert p + q == q;
    } else {
      var pq := p + q;
      assert pq[0] == p[0];
      assert pq[1..] == p[1..] + q;
      StripNonBlankConcat(p[1..], q);
      var v := Text.Strip(p[0]);
      var keep := if v != "" then [v] else [];
      assert StripNonBlank(pq) == keep + StripNonBlank(pq[1..]);
      assert StripNonBlank(p) == keep + StripNonBlank(p[1..]);
    }
  }

  lemma {:induction false} SplitConcat(a: string, b: string, sep: char)
    ensures Text.Split(a + [sep] + b, sep) == Text.Split(a, sep) + Text.Split(b, sep)
  {
    var s := a + [sep] + b;
    if |a| == 0 {
      assert s == [sep] + b;
      assert s[1..] == b;
    } else {
      assert s[1..] == a[1..] + [sep] + b;
      SplitConcat(a[1..], b, sep);
      var head := Text.Split(a[1..], sep);
      var rest := Text.Split(s[1..], sep);
      assert rest == head + Text.Split(b, sep);
      if a[0] == sep {
        assert Text.Split(s, sep) == [""] + rest;
      } else {
        assert rest[0] == head[0];
        assert rest[1..] == head[1..] + Text.Split(b, sep);
        assert Text.Split(s, sep) == [[a[0]] + rest[0]] + rest[1..];
        assert Text.Split(a, sep) == [[a[0]] + head[0]] + head[1..];
      }
    }
  }

  /** Tag values are read in input order: parsing `a,b` is parsing `a` followed by parsing `b`. */
  lemma ParseTagValuesConcat(a: string, b: string)
    ensures ParseTagValues(a + "," + b) == ParseTagValues(a) + ParseTagValues(b)
  {
    SplitConcat(a, b, ',');
    StripNonBlankConcat(Text.Split(a, ','), Text.Split(b, ','));
  }

  /** A single segment without a comma yields its stripped text, or nothing when it is blank. */
  lemma ParseTagValuesSegment(s: string)
    requires ',' !in s
    ensures ParseTagValues(s) == if Text.AllSpace(s) then [] else [Text.Strip(s)]
  {
    Text.SplitPrefix(s, "", ',');
    assert s + "" == s;
    Text.StripBlank(s);
  }

  /** Stripped, non-blank values without commas survive a round trip through their comma-joined text. */
  lemma {:induction false} ParseTagValuesJoin(xs: seq<string>)
    requires forall k :: 0 <= k < |xs| ==> xs[k] != "" && Text.IsStripped(xs[k]) && ',' !in xs[k]
    ensures ParseTagValues(Text.Join(xs, ',')) == xs
  {
    if |xs| == 0 {
      assert Text.Strip("") == "";
    } else {
      Text.SplitJoin(xs, ',');
      StripNonBlankIdentity(xs);
    }
  }

  lemma {:induction false} StripNonBlankIdentity(xs: seq<string>)
    requires forall k :: 0 <= k < |xs| ==> xs[k] != "" && Text.IsStripped(xs[k])
    ensures StripNonBlank(xs) == xs
  {
    if |xs| > 0 {
      Text.StripStripped(xs[0]);
      StripNonBlankIdentity(xs[1..]);
      assert StripNonBlank(xs) == [xs[0]] + StripNonBlank(xs[1..]);
      assert xs == [xs[0]] + xs[1..];
    }
  }

  /** The one filter of the query: `[{"Name": f"tag:{tag_key}", "Values": tag_values}]`. */
  function TagFilters(tagKey: string, csv: string): seq<Filter> {
    [Filter("tag:" + tagKey, ParseTagValues(csv))]
  }

  predicate IsRunning(inst: Instance) {
    inst.stateName == Some("running")
  }

  /** Ids of the running instances of one reservation, in the order the loop appends them. */
  function InstancesRunning(insts: seq<Instance>): seq<string> {
    if |insts| == 0 then []
    else
      var last := insts[|insts| - 1];
      InstancesRunning(insts[..|insts| - 1]) + (if IsRunning(last) then [last.instanceId] else [])
  }

  function ReservationsRunning(rs: seq<Reservation>): seq<string> {
    if |rs| == 0 then []
    else ReservationsRunning(rs[..|rs| - 1]) + InstancesRunning(rs[|rs| - 1].instances)
  }

  /** Every running id of every page, duplicates kept: what `instance_ids` holds before `set`. */
  function RunningIds(pages: seq<Page>): seq<string> {
    if |pages| == 0 then []
    else RunningIds(pages[..|pages| - 1]) + ReservationsRunning(pages[|pages| - 1].reservations)
  }

  /** Some instance of some reservation of some page is running and has id `id`. */
  ghost predicate RunningIn(pages: seq<Page>, id: string) {
    exists p, r, i ::
      0 <= p < |pages| && 0 <= r < |pages[p].reservations| && 0 <= i < |pages[p].reservations[r].instances|
      && pages[p].reservations[r].instances[i].instanceId == id && IsRunning(pages[p].reservations[r].instances[i])
  }

  predicate NoDuplicates(s: seq<string>) {
    forall i, j :: 0 <= i < j < |s| ==> s[i] != s[j]
  }

  lemma {:induction false} InstancesRunningMembers(insts: seq<Instance>, id: string)
    ensures id in InstancesRunning(insts)
        <==> exists i :: 0 <= i < |insts| && insts[i].instanceId == id && IsRunning(insts[i])
  {
    if |insts| > 0 {
      var init := insts[..|insts| - 1];
      InstancesRunningMembers(init, id);
      if exists i :: 0 <= i < |insts| && insts[i].instanceId == id && IsRunning(insts[i]) {
        var i :| 0 <= i < |insts| && insts[i].instanceId == id && IsRunning(insts[i]);
        if i < |init| { assert init[i] == insts[i]; }
      }
    }
  }

  lemma {:induction false} ReservationsRunningMembers(rs: seq<Reservation>, id: string)
    ensures id in ReservationsRunning(rs)
        <==> exists r, i :: 0 <= r < |rs| && 0 <= i < |rs[r].instances|
                            && rs[r].instances[i].instanceId == id && IsRunning(rs[r].instances[i])
  {
    if |rs| > 0 {
      var init := rs[..|rs| - 1];
      var last := rs[|rs| - 1];
      ReservationsRunningMembers(init, id);
      InstancesRunningMembers(last.instances, id);
      if id in ReservationsRunning(rs) {
        if id in ReservationsRunning(init) {
          var r, i :| 0 <= r < |init| && 0 <= i < |init[r].instances|
                      && init[r].instances[i].instanceId == id && IsRunning(init[r].instances[i]);
          assert rs[r] == init[r];
        } else {
          var i :| 0 <= i < |last.instances| && last.instances[i].instanceId == id && IsRunning(last.instances[i]);
          assert rs[|rs| - 1].instances[i] == last.instances[i];
        }
      }
      if exists r, i :: 0 <= r < |rs| && 0 <= i < |rs[r].instances|
                        && rs[r].instances[i].instanceId == id && IsRunning(rs[r].instances[i]) {
        var r, i :| 0 <= r < |rs| && 0 <= i < |rs[r].instances|
                    && rs[r].instances[i].instanceId == id && IsRunning(rs[r].instances[i]);
        if r < |init| { assert init[r] == rs[r]; }
      }
    }
  }

  /** An id is collected iff some running instance on some page, in some reservation, has it. */
  lemma {:induction false} RunningIdsMembers(pages: seq<Page>, id: string)
    ensures id in RunningIds(pages) <==> RunningIn(pages, id)
  {
    if |pages| > 0 {
      var init := pages[..|pages| - 1];
      var last := pages[|pages| - 1];
      RunningIdsMembers(init, id);
      ReservationsRunningMembers(last.reservations, id);
      if id in RunningIds(pages) {
        if id in RunningIds(init) {
          var p, r, i :| 0 <= p < |init| && 0 <= r < |init[p].reservations| && 0 <= i < |init[p].reservations[r].instances|
                         && init[p].reservations[r].instances[i].instanceId == id
                         && IsRunning(init[p].reservations[r].instances[i]);
          assert pages[p] == init[p];
        } else {
          var r, i :| 0 <= r < |last.reservations| && 0 <= i < |last.reservations[r].instances|
                      && last.reservations[r].instances[i].instanceId == id && IsRunning(last.reservations[r].instances[i]);
          assert pages[|pages| - 1].reservations[r].instances[i] == last.reservations[r].instances[i];
        }
      }
      if RunningIn(pages, id) {
        var p, r, i :| 0 <= p < |pages| && 0 <= r < |pages[p].reservations| && 0 <= i < |pages[p].reservations[r].instances|
                       && pages[p].reservations[r].instances[i].instanceId == id
                       && IsRunning(pages[p].reservations[r].instances[i]);
        if p < |init| { assert init[p] == pages[p]; }
      }
    }
  }

  /** The triple loop over pages, reservations and instances that appends each running instance's id. */
  method CollectRunningIds(pages: seq<Page>) returns (ids: seq<string>)
    ensures ids == RunningIds(pages)
  {
    ids := [];
    var p := 0;
    while p < |pages|
      invariant 0 <= p <= |pages|
      invariant ids == RunningIds(pages[..p])
    {
      var rs := pages[p].reservations;
      var r := 0;
      while r < |rs|
        invariant 0 <= r <= |rs|
        invariant ids == RunningIds(pages[..p]) + ReservationsRunning(rs[..r])
      {
        var insts := rs[r].instances;
        var i := 0;
        while i < |insts|
          invariant 0 <= i <= |insts|
          invariant ids == RunningIds(pages[..p]) + ReservationsRunning(rs[..r]) + InstancesRunning(insts[..i])
        {
          if insts[i].stateName == Some("running") {
            ids := ids + [insts[i].instanceId];
          }
          assert insts[..i + 1][..i] == insts[..i];
          i := i + 1;
        }
        assert insts[..|insts|] == insts;
        assert rs[..r + 1][..r] == rs[..r];
        r := r + 1;
      }
      assert rs[..|rs|] == rs;
      assert pages[..p + 1][..p] == pages[..p];
      p := p + 1;
    }
    assert pages[..|pages|] == pages;
  }

  /** `list(set(xs))`: the same ids without duplicates. Python leaves the order
      to the set's iteration; the contract fixes none, and this body keeps
      first occurrences. */
  method Distinct(xs: seq<string>) returns (r: seq<string>)
    ensures NoDuplicates(r)
    ensures forall x :: x in r <==> x in xs
  {
    r := [];
    var i := 0;
    while i < |xs|
      invariant 0 <= i <= |xs|
      invariant NoDuplicates(r)
      invariant forall x :: x in r <==> x in xs[..i]
    {
      if xs[i] !in r {
        r := r + [xs[i]];
      }
      assert xs[..i + 1] == xs[..i] + [xs[i]];
      i := i + 1;
    }
    assert xs[..|xs|] == xs;
  }

  /** The outcome of the lookup: the instance ids, or the fault that made the script exit with code 1. */
  datatype Lookup = Found(instanceIds: seq<string>) | Failed(description: string)

  /** `get_instance_ids_by_tag_values(tag_key, tag_value_csv)` over the inventory `query`.
      It makes exactly one query, with the single filter `tag:<key>` whose values are
      the parsed list; a fault of the inventory is a failure with no partial result;
      otherwise the ids are exactly the distinct ids of running instances. */
  method GetInstanceIdsByTagValues(tagKey: string, csv: string, query: seq<Filter> -> QueryReply)
    returns (r: Lookup, calls: seq<Call>)
    ensures calls == [QueryCall([Filter("tag:" + tagKey, ParseTagValues(csv))])]
    ensures query(calls[0].filters).QueryFault? ==> r == Failed(query(calls[0].filters).description)
    ensures query(calls[0].filters).Pages? ==>
      r.Found? && NoDuplicates(r.instanceIds)
      && forall id :: id in r.instanceIds <==> RunningIn(query(calls[0].filters).pages, id)
  {
    var filters := TagFilters(tagKey, csv);
    calls := [QueryCall(filters)];
    match query(filters)
    case QueryFault(e) =>
      r := Failed(e);
    case Pages(pages) =>
      var collected := CollectRunningIds(pages);
      var ids := Distinct(collected);
      forall id ensures id in ids <==> RunningIn(pages, id) {
        RunningIdsMembers(pages, id);
      }
      r := Found(ids);
  }
}
