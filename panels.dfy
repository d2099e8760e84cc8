/**
 * `enforcePhotoCoverage` of `lib/ai/panels.ts`: an in-place repair of a
 * panel array so that every supplied photo is used at least once, by moving
 * panels that share an over-used photo onto photos no panel uses yet.
 */
module Panels {
  import opened Wrappers
  import opened Structured
  import opened Providers

  /* --------------------------- counting references ------------------------ */

  /** The number of panels whose `photoId` is `id`. */
  function Refs(ps: seq<Panel>, id: string): nat
    ensures Refs(ps, id) <= |ps|
  {
    if |ps| == 0 then 0
    else Refs(ps[..|ps| - 1], id) + (if ps[|ps| - 1].photoId == Some(id) then 1 else 0)
  }

  /** Replacing one panel moves one reference from its old photo to its new one. */
  lemma {:induction false} RefsUpdate(ps: seq<Panel>, k: nat, q: Panel, id: string)
    requires k < |ps|
    ensures Refs(ps[k := q], id)
         == Refs(ps, id) - (if ps[k].photoId == Some(id) then 1 else 0) + (if q.photoId == Some(id) then 1 else 0)
    decreases |ps|
  {
    var qs := ps[k := q];
    if k < |ps| - 1 {
      assert qs[..|qs| - 1] == ps[..|ps| - 1][k := q];
      RefsUpdate(ps[..|ps| - 1], k, q, id);
    } else {
      assert qs[..|qs| - 1] == ps[..|ps| - 1];
    }
  }

  /** `photos.map(p => p.id)` */
  function PhotoIds(photos: seq<Photo>): (ids: seq<string>)
    ensures |ids| == |photos| && forall i :: 0 <= i < |photos| ==> ids[i] == photos[i].id
  {
    seq(|photos|, i requires 0 <= i < |photos| => photos[i].id)
  }

  predicate Distinct(xs: seq<string>) {
    forall i, j :: 0 <= i < j < |xs| ==> xs[i] != xs[j]
  }

  /** The reference count of every photo id before any repair. */
  function RefCounts(ids: seq<string>, ps: seq<Panel>): (c: map<string, int>)
    ensures forall id :: id in c <==> id in ids
    ensures forall id :: id in c ==> c[id] == Refs(ps, id)
  {
    map id | id in ids :: Refs(ps, id)
  }

  /** `photoIds.filter(pid => counts.get(pid) === 0)`: the unused ids, in photo order. */
  function Missing(ids: seq<string>, counts: map<string, int>): (m: seq<string>)
    requires forall i :: 0 <= i < |ids| ==> ids[i] in counts
    ensures forall id :: id in m ==> id in ids && counts[id] == 0
    ensures forall id :: id in ids && counts[id] == 0 ==> id in m
    ensures Distinct(ids) ==> Distinct(m)
  {
    if |ids| == 0 then []
    else
      var rest := Missing(ids[1..], counts);
      assert forall id :: id in ids[1..] ==> id in ids;
      if counts[ids[0]] == 0 then
        assert Distinct(ids) ==> ids[0] !in ids[1..];
        [ids[0]] + rest
      else rest
  }

  /** One step of the filter: the first id, when unused, then the unused ids of the rest. */
  lemma MissingCons(ids: seq<string>, counts: map<string, int>)
    requires |ids| > 0 && forall i :: 0 <= i < |ids| ==> ids[i] in counts
    ensures Missing(ids, counts) == (if counts[ids[0]] == 0 then [ids[0]] else []) + Missing(ids[1..], counts)
  {
  }

  /** The unused ids of a concatenation are those of each part, in that order: the filter keeps photo order. */
  lemma {:induction false} MissingConcat(a: seq<string>, b: seq<string>, counts: map<string, int>)
    requires forall i :: 0 <= i < |a| ==> a[i] in counts
    requires forall i :: 0 <= i < |b| ==> b[i] in counts
    ensures forall i :: 0 <= i < |a + b| ==> (a + b)[i] in counts
    ensures Missing(a + b, counts) == Missing(a, counts) + Missing(b, counts)
    decreases |a|
  {
    ConcatKnown(a, b, counts);
    if |a| == 0 {
      assert a + b == b;
    } else {
      ConcatKnown(a[1..], b, counts);
      assert (a + b)[0] == a[0] && (a + b)[1..] == a[1..] + b;
      MissingCons(a + b, counts);
      MissingCons(a, counts);
      MissingConcat(a[1..], b, counts);
    }
  }

  lemma ConcatKnown(a: seq<string>, b: seq<string>, counts: map<string, int>)
    requires forall i :: 0 <= i < |a| ==> a[i] in counts
    requires forall i :: 0 <= i < |b| ==> b[i] in counts
    ensures forall i :: 0 <= i < |a + b| ==> (a + b)[i] in counts
  {
    forall i | 0 <= i < |a + b|
      ensures (a + b)[i] in counts
    {
      if i < |a| { assert (a + b)[i] == a[i]; } else { assert (a + b)[i] == b[i - |a|]; }
    }
  }

  /** A single id is kept exactly when it is unused. */
  lemma MissingSingle(id: string, counts: map<string, int>)
    requires id in counts
    ensures Missing([id], counts) == if counts[id] == 0 then [id] else []
  {
  }

  /* ------------------------------- donors -------------------------------- */

  /** An entry of the donor list: the panel, its position and its photo id. */
  datatype Candidate = Candidate(panel: Panel, idx: nat, pid: string)

  /** A panel whose photo is a known id used more than once. */
  predicate IsDonor(p: Panel, counts: map<string, int>) {
    p.photoId.Some? && p.photoId.value != "" && p.photoId.value in counts && counts[p.photoId.value] > 1
  }

  /** The donor list, in panel order. */
  function Candidates(ps: seq<Panel>, counts: map<string, int>): (cs: seq<Candidate>)
    ensures forall j :: 0 <= j < |cs| ==>
              cs[j].idx < |ps| && ps[cs[j].idx] == cs[j].panel && IsDonor(cs[j].panel, counts)
              && cs[j].panel.photoId == Some(cs[j].pid)
    ensures forall i, j :: 0 <= i < j < |cs| ==> cs[i].idx < cs[j].idx
  {
    if |ps| == 0 then []
    else
      var k := |ps| - 1;
      var init := Candidates(ps[..k], counts);
      if IsDonor(ps[k], counts) then init + [Candidate(ps[k], k, ps[k].photoId.value)] else init
  }

  /** The number of donor entries for `pid`. */
  function CandCount(cs: seq<Candidate>, pid: string): nat {
    if |cs| == 0 then 0
    else CandCount(cs[..|cs| - 1], pid) + (if cs[|cs| - 1].pid == pid then 1 else 0)
  }

  lemma CandCountStep(cs: seq<Candidate>, n: nat, pid: string)
    requires n < |cs|
    ensures CandCount(cs[..n + 1], pid) == CandCount(cs[..n], pid) + (if cs[n].pid == pid then 1 else 0)
  {
    assert cs[..n + 1][..n] == cs[..n];
  }

  /** Every reference to an over-used photo is on the donor list. */
  lemma {:induction false} CandidatesCount(ps: seq<Panel>, counts: map<string, int>, pid: string)
    requires pid in counts && counts[pid] > 1 && pid != ""
    ensures CandCount(Candidates(ps, counts), pid) == Refs(ps, pid)
    decreases |ps|
  {
    if |ps| > 0 {
      var k := |ps| - 1;
      CandidatesCount(ps[..k], counts, pid);
      var init := Candidates(ps[..k], counts);
      if IsDonor(ps[k], counts) {
        assert (init + [Candidate(ps[k], k, ps[k].photoId.value)])[..|init|] == init;
      }
    }
  }

  /** The new panel `q` is the old panel `p` moved from an over-used photo onto one that was unused. */
  predicate Reassigned(p: Panel, q: Panel, counts: map<string, int>) {
    && IsDonor(p, counts)
    && q == p.(photoId := q.photoId)
    && q.photoId.Some? && q.photoId.value in counts && counts[q.photoId.value] == 0
  }

  /* ------------------------- the repair invariant ------------------------ */

  /** The live counts are the reference counts of the panels as they now are. */
  ghost predicate InvCounts(ps: seq<Panel>, c0: map<string, int>, counts: map<string, int>) {
    && (forall id :: id in counts <==> id in c0)
    && (forall id :: id in counts ==> counts[id] == Refs(ps, id))
  }

  /** The donors not yet reached still hold their original panel. */
  ghost predicate InvFresh(p0: seq<Panel>, ps: seq<Panel>, cands: seq<Candidate>, candIdx: nat) {
    && |ps| == |p0|
    && candIdx <= |cands|
    && (forall j :: candIdx <= j < |cands| ==> cands[j].idx < |ps| && ps[cands[j].idx] == p0[cands[j].idx])
  }

  /** Every panel is as it was, or was moved from an over-used photo to an unused one. */
  ghost predicate InvChanged(p0: seq<Panel>, ps: seq<Panel>, c0: map<string, int>) {
    && |ps| == |p0|
    && forall k :: 0 <= k < |ps| ==> ps[k] == p0[k] || Reassigned(p0[k], ps[k], c0)
  }

  /**
   * Photos used once are untouched; an over-used photo stays used, and
   * either is down to one use or has at least as many donors left as uses.
   */
  ghost predicate InvDonors(c0: map<string, int>, counts: map<string, int>, cands: seq<Candidate>, candIdx: nat) {
    && candIdx <= |cands|
    && (forall id :: id in counts && id in c0 && c0[id] == 1 ==> counts[id] == 1)
    && (forall id :: id in counts && id in c0 && c0[id] > 1 ==>
          counts[id] >= 1 && (counts[id] <= 1 || counts[id] <= CandCount(cands, id) - CandCount(cands[..candIdx], id)))
  }

  /** The first `mi` unused photos are covered, each once when the ids are distinct, and the rest not yet. */
  ghost predicate InvMissing(counts: map<string, int>, missing: seq<string>, mi: nat) {
    && mi <= |missing|
    && (forall i :: 0 <= i < |missing| ==> missing[i] in counts && counts[missing[i]] >= 0)
    && (forall i :: 0 <= i < mi ==> counts[missing[i]] >= 1)
    && (Distinct(missing) ==> forall i :: 0 <= i < |missing| ==> counts[missing[i]] == if i < mi then 1 else 0)
  }

  /** What holds of the counts, the donor list and the unused list once counting is done. */
  ghost predicate Setup(p0: seq<Panel>, ids: seq<string>, c0: map<string, int>, cands: seq<Candidate>, missing: seq<string>) {
    && "" !in ids
    && c0 == RefCounts(ids, p0)
    && cands == Candidates(p0, c0)
    && missing == Missing(ids, c0)
    && (forall pid :: pid in c0 && c0[pid] > 1 ==> CandCount(cands, pid) == Refs(p0, pid))
  }

  ghost predicate RepairInv(p0: seq<Panel>, ps: seq<Panel>, c0: map<string, int>, counts: map<string, int>,
                            cands: seq<Candidate>, candIdx: nat, missing: seq<string>, mi: nat) {
    && InvCounts(ps, c0, counts)
    && InvFresh(p0, ps, cands, candIdx)
    && InvChanged(p0, ps, c0)
    && InvDonors(c0, counts, cands, candIdx)
    && InvMissing(counts, missing, mi)
  }

  lemma SetupFacts(p0: seq<Panel>, ids: seq<string>, c0: map<string, int>)
    requires "" !in ids && c0 == RefCounts(ids, p0)
    ensures Setup(p0, ids, c0, Candidates(p0, c0), Missing(ids, c0))
  {
    forall pid | pid in c0 && c0[pid] > 1
      ensures CandCount(Candidates(p0, c0), pid) == Refs(p0, pid)
    {
      CandidatesCount(p0, c0, pid);
    }
  }

  lemma RepairStart(p0: seq<Panel>, ids: seq<string>, c0: map<string, int>, cands: seq<Candidate>, missing: seq<string>)
    requires Setup(p0, ids, c0, cands, missing)
    ensures RepairInv(p0, p0, c0, c0, cands, 0, missing, 0)
  {
    assert cands[..0] == [];
  }

  /** Passing over a donor whose photo is down to one use keeps the invariant. */
  lemma SkipStep(p0: seq<Panel>, ps: seq<Panel>, c0: map<string, int>, counts: map<string, int>,
                 cands: seq<Candidate>, candIdx: nat, missing: seq<string>, mi: nat)
    requires RepairInv(p0, ps, c0, counts, cands, candIdx, missing, mi)
    requires candIdx < |cands| && cands[candIdx].pid in counts && counts[cands[candIdx].pid] <= 1
    ensures RepairInv(p0, ps, c0, counts, cands, candIdx + 1, missing, mi)
  {
    forall id | id in counts && id in c0 && c0[id] > 1
      ensures CandCount(cands[..candIdx + 1], id) == CandCount(cands[..candIdx], id) + (if cands[candIdx].pid == id then 1 else 0)
    {
      CandCountStep(cands, candIdx, id);
    }
  }

  /** The counts after a move follow the panels. */
  lemma SwapCounts(ps: seq<Panel>, c0: map<string, int>, counts: map<string, int>, k: nat, q: Panel, from: string, to: string)
    requires InvCounts(ps, c0, counts)
    requires k < |ps| && ps[k].photoId == Some(from) && q.photoId == Some(to) && from != to
    requires from in counts && to in counts
    ensures InvCounts(ps[k := q], c0, counts[to := counts[to] + 1][from := counts[from] - 1])
  {
    forall id | id in counts
      ensures Refs(ps[k := q], id) == Refs(ps, id) - (if id == from then 1 else 0) + (if id == to then 1 else 0)
    {
      RefsUpdate(ps, k, q, id);
    }
  }

  lemma SwapFresh(p0: seq<Panel>, ps: seq<Panel>, cands: seq<Candidate>, candIdx: nat, q: Panel)
    requires InvFresh(p0, ps, cands, candIdx) && candIdx < |cands|
    requires forall i, j :: 0 <= i < j < |cands| ==> cands[i].idx < cands[j].idx
    ensures InvFresh(p0, ps[cands[candIdx].idx := q], cands, candIdx + 1)
  {
  }

  lemma SwapChanged(p0: seq<Panel>, ps: seq<Panel>, c0: map<string, int>, k: nat, q: Panel)
    requires InvChanged(p0, ps, c0) && k < |ps| && Reassigned(p0[k], q, c0)
    ensures InvChanged(p0, ps[k := q], c0)
  {
  }

  lemma SwapDonors(c0: map<string, int>, counts: map<string, int>,
                   cands: seq<Candidate>, candIdx: nat, from: string, to: string)
    requires InvDonors(c0, counts, cands, candIdx) && candIdx < |cands| && cands[candIdx].pid == from
    requires from in counts && to in counts && from in c0 && to in c0 && c0[from] > 1 && c0[to] == 0
    requires counts[from] > 1
    ensures InvDonors(c0, counts[to := counts[to] + 1][from := counts[from] - 1], cands, candIdx + 1)
  {
    forall id | id in counts && id in c0 && c0[id] > 1
      ensures CandCount(cands[..candIdx + 1], id) == CandCount(cands[..candIdx], id) + (if from == id then 1 else 0)
    {
      CandCountStep(cands, candIdx, id);
    }
  }

  lemma SwapMissing(c0: map<string, int>, counts: map<string, int>, missing: seq<string>, mi: nat, from: string)
    requires InvMissing(counts, missing, mi) && mi < |missing|
    requires forall i :: 0 <= i < |missing| ==> missing[i] in c0 && c0[missing[i]] == 0
    requires from in counts && from in c0 && c0[from] > 1
    ensures InvMissing(counts[missing[mi] := counts[missing[mi]] + 1][from := counts[from] - 1], missing, mi + 1)
  {
    var needed := missing[mi];
    var counts' := counts[needed := counts[needed] + 1][from := counts[from] - 1];
    forall i | 0 <= i < |missing|
      ensures missing[i] != from
      ensures counts'[missing[i]] == counts[missing[i]] + (if missing[i] == needed then 1 else 0)
    {
    }
    if Distinct(missing) {
      forall i | 0 <= i < |missing|
        ensures counts'[missing[i]] == if i < mi + 1 then 1 else 0
      {
        if i != mi {
          assert missing[i] != needed;
        }
      }
    }
  }

  /** The next unused photo is never the next donor's photo. */
  lemma NeededNotDonor(p0: seq<Panel>, ids: seq<string>, c0: map<string, int>,
                       cands: seq<Candidate>, candIdx: nat, missing: seq<string>, mi: nat)
    requires Setup(p0, ids, c0, cands, missing)
    requires candIdx < |cands| && mi < |missing|
    ensures missing[mi] != cands[candIdx].pid
  {
    assert c0[missing[mi]] == 0;
    assert IsDonor(cands[candIdx].panel, c0) && cands[candIdx].panel.photoId == Some(cands[candIdx].pid);
  }

  /** What the counting phase tells about the next donor and the next unused photo. */
  ghost predicate SwapReady(p0: seq<Panel>, c0: map<string, int>, cands: seq<Candidate>, candIdx: nat,
                            missing: seq<string>, mi: nat) {
    && candIdx < |cands| && mi < |missing|
    && cands[candIdx].idx < |p0| && p0[cands[candIdx].idx] == cands[candIdx].panel
    && cands[candIdx].panel.photoId == Some(cands[candIdx].pid)
    && cands[candIdx].pid in c0 && c0[cands[candIdx].pid] > 1 && IsDonor(cands[candIdx].panel, c0)
    && missing[mi] in c0 && c0[missing[mi]] == 0
    && (forall i :: 0 <= i < |missing| ==> missing[i] in c0 && c0[missing[i]] == 0)
    && (forall i, j :: 0 <= i < j < |cands| ==> cands[i].idx < cands[j].idx)
  }

  lemma SwapFacts(p0: seq<Panel>, ids: seq<string>, c0: map<string, int>,
                  cands: seq<Candidate>, candIdx: nat, missing: seq<string>, mi: nat)
    requires Setup(p0, ids, c0, cands, missing)
    requires candIdx < |cands| && mi < |missing|
    ensures SwapReady(p0, c0, cands, candIdx, missing, mi)
  {
    assert IsDonor(cands[candIdx].panel, c0);
  }

  /** Moving the donor panel keeps the counts, the untouched donors and the change record right. */
  lemma SwapPanels(p0: seq<Panel>, ps: seq<Panel>, ps': seq<Panel>, c0: map<string, int>,
                   counts: map<string, int>, counts': map<string, int>,
                   cands: seq<Candidate>, candIdx: nat, missing: seq<string>, mi: nat, from: string, to: string)
    requires SwapReady(p0, c0, cands, candIdx, missing, mi)
    requires from == cands[candIdx].pid && to == missing[mi]
    requires InvCounts(ps, c0, counts) && InvFresh(p0, ps, cands, candIdx) && InvChanged(p0, ps, c0)
    requires ps' == ps[cands[candIdx].idx := cands[candIdx].panel.(photoId := Some(to))]
    requires counts' == counts[to := counts[to] + 1][from := counts[from] - 1]
    ensures InvCounts(ps', c0, counts') && InvFresh(p0, ps', cands, candIdx + 1) && InvChanged(p0, ps', c0)
  {
    var q := cands[candIdx].panel.(photoId := Some(to));
    SwapCounts(ps, c0, counts, cands[candIdx].idx, q, from, to);
    SwapFresh(p0, ps, cands, candIdx, q);
    SwapChanged(p0, ps, c0, cands[candIdx].idx, q);
  }

  /** Moving the donor panel keeps the donor and the unused-photo bookkeeping right. */
  lemma SwapTallies(p0: seq<Panel>, c0: map<string, int>, counts: map<string, int>, counts': map<string, int>,
                    cands: seq<Candidate>, candIdx: nat, missing: seq<string>, mi: nat, from: string, to: string)
    requires SwapReady(p0, c0, cands, candIdx, missing, mi)
    requires from == cands[candIdx].pid && to == missing[mi]
    requires InvDonors(c0, counts, cands, candIdx) && InvMissing(counts, missing, mi)
    requires from in counts && counts[from] > 1
    requires counts' == counts[to := counts[to] + 1][from := counts[from] - 1]
    ensures InvDonors(c0, counts', cands, candIdx + 1) && InvMissing(counts', missing, mi + 1)
  {
    SwapDonors(c0, counts, cands, candIdx, from, to);
    SwapMissing(c0, counts, missing, mi, from);
  }

  /** Moving the next donor onto the next unused photo keeps the invariant. */
  lemma SwapStep(p0: seq<Panel>, ids: seq<string>, ps: seq<Panel>, ps': seq<Panel>, c0: map<string, int>,
                 counts: map<string, int>, counts': map<string, int>,
                 cands: seq<Candidate>, candIdx: nat, missing: seq<string>, mi: nat, from: string, to: string)
    requires Setup(p0, ids, c0, cands, missing)
    requires RepairInv(p0, ps, c0, counts, cands, candIdx, missing, mi)
    requires candIdx < |cands| && mi < |missing|
    requires from == cands[candIdx].pid && to == missing[mi]
    requires from in counts && counts[from] > 1
    requires ps' == ps[cands[candIdx].idx := cands[candIdx].panel.(photoId := Some(to))]
    requires counts' == counts[to := counts[to] + 1][from := counts[from] - 1]
    ensures RepairInv(p0, ps', c0, counts', cands, candIdx + 1, missing, mi + 1)
  {
    SwapFacts(p0, ids, c0, cands, candIdx, missing, mi);
    SwapPanels(p0, ps, ps', c0, counts, counts', cands, candIdx, missing, mi, from, to);
    SwapTallies(p0, c0, counts, counts', cands, candIdx, missing, mi, from, to);
  }

  /** A photo in use before the repair is still in use after it. */
  lemma DoneUsed(p0: seq<Panel>, ids: seq<string>, ps: seq<Panel>, c0: map<string, int>, counts: map<string, int>,
                 cands: seq<Candidate>, candIdx: nat)
    requires c0 == RefCounts(ids, p0)
    requires InvCounts(ps, c0, counts) && InvDonors(c0, counts, cands, candIdx)
    ensures forall id :: id in ids && Refs(p0, id) >= 1 ==> Refs(ps, id) >= 1
  {
  }

  /** With distinct ids, a photo unused before the repair gets at most one panel. */
  lemma DoneUnused(p0: seq<Panel>, ids: seq<string>, ps: seq<Panel>, c0: map<string, int>, counts: map<string, int>,
                   missing: seq<string>, mi: nat)
    requires c0 == RefCounts(ids, p0) && missing == Missing(ids, c0) && Distinct(missing)
    requires InvCounts(ps, c0, counts) && InvMissing(counts, missing, mi)
    ensures forall id :: id in ids && Refs(p0, id) == 0 ==> Refs(ps, id) <= 1
  {
    forall id | id in ids && Refs(p0, id) == 0
      ensures Refs(ps, id) <= 1
    {
      assert id in missing;
      var i :| 0 <= i < |missing| && missing[i] == id;
    }
  }

  /** With distinct ids, the unused photos are covered in photo order. */
  lemma DoneOrder(ps: seq<Panel>, c0: map<string, int>, counts: map<string, int>, missing: seq<string>, mi: nat)
    requires Distinct(missing)
    requires InvCounts(ps, c0, counts) && InvMissing(counts, missing, mi)
    ensures forall i, j :: 0 <= i < j < |missing| && Refs(ps, missing[j]) >= 1 ==> Refs(ps, missing[i]) >= 1
  {
  }

  /** Once every unused photo has been handed a panel, every photo is in use. */
  lemma DoneCovered(p0: seq<Panel>, ids: seq<string>, ps: seq<Panel>, c0: map<string, int>, counts: map<string, int>,
                    missing: seq<string>)
    requires c0 == RefCounts(ids, p0) && missing == Missing(ids, c0)
    requires InvCounts(ps, c0, counts) && InvMissing(counts, missing, |missing|)
    requires forall id :: id in ids && Refs(p0, id) >= 1 ==> Refs(ps, id) >= 1
    ensures forall id :: id in ids ==> Refs(ps, id) >= 1
  {
    forall id | id in ids
      ensures Refs(ps, id) >= 1
    {
      if Refs(p0, id) == 0 {
        assert id in missing;
        var i :| 0 <= i < |missing| && missing[i] == id;
      }
    }
  }

  /** Once the donors run out, no photo is used more than once. */
  lemma DoneSaturated(p0: seq<Panel>, ids: seq<string>, ps: seq<Panel>, c0: map<string, int>, counts: map<string, int>,
                      cands: seq<Candidate>)
    requires c0 == RefCounts(ids, p0)
    requires InvCounts(ps, c0, counts) && InvDonors(c0, counts, cands, |cands|)
    requires forall id :: id in ids && Refs(p0, id) == 0 ==> Refs(ps, id) <= 1
    ensures forall id :: id in ids ==> Refs(ps, id) <= 1
  {
    assert cands[..|cands|] == cands;
  }

  /** When the walk ends, by running out of unused photos or of donors, the repair's promises hold. */
  lemma RepairDone(p0: seq<Panel>, ids: seq<string>, ps: seq<Panel>, c0: map<string, int>, counts: map<string, int>,
                   cands: seq<Candidate>, candIdx: nat, missing: seq<string>, mi: nat)
    requires Setup(p0, ids, c0, cands, missing)
    requires RepairInv(p0, ps, c0, counts, cands, candIdx, missing, mi)
    requires mi == |missing| || candIdx >= |cands|
    ensures |ps| == |p0|
    ensures forall k :: 0 <= k < |ps| ==> ps[k] == p0[k] || Reassigned(p0[k], ps[k], c0)
    ensures forall id :: id in ids && Refs(p0, id) >= 1 ==> Refs(ps, id) >= 1
    ensures Distinct(ids) ==> forall id :: id in ids && Refs(p0, id) == 0 ==> Refs(ps, id) <= 1
    ensures Distinct(ids) ==>
              forall i, j :: 0 <= i < j < |missing| && Refs(ps, missing[j]) >= 1 ==> Refs(ps, missing[i]) >= 1
    ensures Distinct(ids) ==>
              (forall id :: id in ids ==> Refs(ps, id) >= 1) || (forall id :: id in ids ==> Refs(ps, id) <= 1)
  {
    DoneUsed(p0, ids, ps, c0, counts, cands, candIdx);
    if Distinct(ids) {
      DoneUnused(p0, ids, ps, c0, counts, missing, mi);
      DoneOrder(ps, c0, counts, missing, mi);
      if mi == |missing| {
        DoneCovered(p0, ids, ps, c0, counts, missing);
      } else {
        DoneSaturated(p0, ids, ps, c0, counts, cands);
      }
    }
  }

  /* ------------------------------- repair -------------------------------- */

  /** The first loops of `enforcePhotoCoverage`: a zero per photo id, then one per panel using it. */
  method CountUsage(panels: array<Panel>, ids: seq<string>) returns (counts: map<string, int>)
    requires "" !in ids
    ensures counts == RefCounts(ids, panels[..])
  {
    counts := map[];
    for i := 0 to |ids|
      invariant forall id :: id in counts <==> id in ids[..i]
      invariant forall id :: id in counts ==> counts[id] == 0
    {
      counts := counts[ids[i] := 0];
    }
    assert ids[..|ids|] == ids;

    for k := 0 to panels.Length
      invariant forall id :: id in counts <==> id in ids
      invariant forall id :: id in counts ==> counts[id] == Refs(panels[..k], id)
    {
      assert panels[..k + 1][..k] == panels[..k];
      var pid := panels[k].photoId;
      if pid.Some? && pid.value != "" && pid.value in counts {
        counts := counts[pid.value := counts[pid.value] + 1];
      }
    }
    assert panels[..panels.Length] == panels[..];
  }

  /**
   * The swap: the next donor panel takes the next unused photo, and one use
   * moves from the donor's photo to it.
   */
  method Swap(panels: array<Panel>, ghost p0: seq<Panel>, ghost ids: seq<string>, ghost c0: map<string, int>,
              counts: map<string, int>, candidates: seq<Candidate>, candIdx: nat, missing: seq<string>, mi: nat)
    returns (counts': map<string, int>)
    requires Setup(p0, ids, c0, candidates, missing)
    requires RepairInv(p0, panels[..], c0, counts, candidates, candIdx, missing, mi)
    requires candIdx < |candidates| && mi < |missing|
    requires candidates[candIdx].pid in counts && counts[candidates[candIdx].pid] > 1
    modifies panels
    ensures panels[..] == old(panels[..])[candidates[candIdx].idx := candidates[candIdx].panel.(photoId := Some(missing[mi]))]
    ensures counts' == counts[missing[mi] := counts[missing[mi]] + 1]
                             [candidates[candIdx].pid := counts[candidates[candIdx].pid] - 1]
    ensures RepairInv(p0, panels[..], c0, counts', candidates, candIdx + 1, missing, mi + 1)
  {
    var from, to := candidates[candIdx].pid, missing[mi];
    ghost var ps := panels[..];
    panels[candidates[candIdx].idx] := candidates[candIdx].panel.(photoId := Some(to));
    assert panels[..] == ps[candidates[candIdx].idx := candidates[candIdx].panel.(photoId := Some(to))];
    counts' := counts[to := counts[to] + 1][from := counts[from] - 1];
    assert counts' == counts[missing[mi] := counts[missing[mi]] + 1]
                            [candidates[candIdx].pid := counts[candidates[candIdx].pid] - 1];
    SwapStep(p0, ids, ps, panels[..], c0, counts, counts', candidates, candIdx, missing, mi, from, to);
  }

  /**
   * The reassignment loop: walk the unused photos in order, giving each the
   * next donor whose photo is still used more than once, until either list
   * runs out.
   */
  method Reassign(panels: array<Panel>, ghost p0: seq<Panel>, ghost ids: seq<string>, ghost c0: map<string, int>,
                  counts: map<string, int>, candidates: seq<Candidate>, missing: seq<string>)
    returns (counts': map<string, int>, candIdx: nat, mi: nat)
    requires Setup(p0, ids, c0, candidates, missing)
    requires panels[..] == p0 && counts == c0
    modifies panels
    ensures RepairInv(p0, panels[..], c0, counts', candidates, candIdx, missing, mi)
    ensures mi == |missing| || candIdx >= |candidates|
  {
    RepairStart(p0, ids, c0, candidates, missing);
    counts' := counts;
    candIdx, mi := 0, 0;
    while mi < |missing|
      invariant RepairInv(p0, panels[..], c0, counts', candidates, candIdx, missing, mi)
      decreases |missing| - mi
    {
      while candIdx < |candidates| && counts'[candidates[candIdx].pid] <= 1
        invariant RepairInv(p0, panels[..], c0, counts', candidates, candIdx, missing, mi)
        decreases |candidates| - candIdx
      {
        SkipStep(p0, panels[..], c0, counts', candidates, candIdx, missing, mi);
        candIdx := candIdx + 1;
      }
      if candIdx >= |candidates| {
        break;
      }
      counts' := Swap(panels, p0, ids, c0, counts', candidates, candIdx, missing, mi);
      candIdx := candIdx + 1;
      mi := mi + 1;
    }
  }

  /**
   * The rest of `enforcePhotoCoverage` once the counts are in: list the
   * unused photos, stop if there are none, list the donors and reassign.
   */
  method Cover(panels: array<Panel>, ghost p0: seq<Panel>, ids: seq<string>, counts: map<string, int>)
    requires "" !in ids && counts == RefCounts(ids, p0) && panels[..] == p0
    modifies panels
    ensures |Missing(ids, counts)| == 0 ==> panels[..] == p0
    ensures forall k :: 0 <= k < panels.Length ==> panels[k] == p0[k] || Reassigned(p0[k], panels[k], counts)
    ensures forall id :: id in ids && Refs(p0, id) >= 1 ==> Refs(panels[..], id) >= 1
    ensures Distinct(ids) ==> forall id :: id in ids && Refs(p0, id) == 0 ==> Refs(panels[..], id) <= 1
    ensures Distinct(ids) ==>
              var m := Missing(ids, counts);
              forall i, j :: 0 <= i < j < |m| && Refs(panels[..], m[j]) >= 1 ==> Refs(panels[..], m[i]) >= 1
    ensures Distinct(ids) ==>
              (forall id :: id in ids ==> Refs(panels[..], id) >= 1)
              || (forall id :: id in ids ==> Refs(panels[..], id) <= 1)
  {
    ghost var c0 := counts;

    // which photos are unused?
    var missing := Missing(ids, counts);
    if |missing| == 0 {
      return;
    }

    // donors: panels whose photo is used more than once
    var candidates := Candidates(panels[..], counts);
    SetupFacts(p0, ids, c0);

    // reassign in order
    var counts', candIdx, mi := Reassign(panels, p0, ids, c0, counts, candidates, missing);
    RepairDone(p0, ids, panels[..], c0, counts', candidates, candIdx, missing, mi);
  }

  /**
   * `enforcePhotoCoverage(panels, photos)`. Photo ids are non-empty (the
   * database's generated ids).
   */
  method EnforcePhotoCoverage(panels: array<Panel>, photos: seq<Photo>) returns (r: array<Panel>)
    requires forall i :: 0 <= i < |photos| ==> photos[i].id != ""
    modifies panels
    ensures r == panels
    // nothing to repair: the array is left as it was
    ensures panels.Length == 0 || |photos| == 0
            || |Missing(PhotoIds(photos), RefCounts(PhotoIds(photos), old(panels[..])))| == 0
            ==> panels[..] == old(panels[..])
    // a panel either keeps everything, or moves from an over-used photo to an unused one
    ensures forall k :: 0 <= k < panels.Length ==>
              panels[k] == old(panels[k]) || Reassigned(old(panels[k]), panels[k], RefCounts(PhotoIds(photos), old(panels[..])))
    // a photo that was used stays used
    ensures forall id :: id in PhotoIds(photos) && Refs(old(panels[..]), id) >= 1 ==> Refs(panels[..], id) >= 1
    // with distinct ids: each unused photo is given at most one panel ...
    ensures Distinct(PhotoIds(photos)) ==>
              forall id :: id in PhotoIds(photos) && Refs(old(panels[..]), id) == 0 ==> Refs(panels[..], id) <= 1
    // ... the unused photos are covered in photo order ...
    ensures Distinct(PhotoIds(photos)) ==>
              var m := Missing(PhotoIds(photos), RefCounts(PhotoIds(photos), old(panels[..])));
              forall i, j :: 0 <= i < j < |m| && Refs(panels[..], m[j]) >= 1 ==> Refs(panels[..], m[i]) >= 1
    // ... and the repair stops only when every photo is used or no photo is used twice
    ensures Distinct(PhotoIds(photos)) ==>
              (forall id :: id in PhotoIds(photos) ==> Refs(panels[..], id) >= 1)
              || (forall id :: id in PhotoIds(photos) ==> Refs(panels[..], id) <= 1)
  {
    if panels.Length == 0 || |photos| == 0 {
      return panels;
    }
    ghost var p0 := panels[..];
    var ids := PhotoIds(photos);
    var counts := CountUsage(panels, ids);
    Cover(panels, p0, ids, counts);
    return panels;
  }
}
