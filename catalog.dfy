/**
 * A feed's catalog (`Feed`, iplayercast.py) and the three loops of
 * `load_feed` that change it: the search loop, the merge of each search's
 * programmes into the catalog, and the download of every programme not yet
 * downloaded.
 */
module Catalog {
  import opened Wrappers
  import opened Programmes
  import opened Listing
  import Dates

  /** The pids present in a list of programmes. */
  function Pids(ps: seq<Programme>): set<string>
  {
    set k | 0 <= k < |ps| :: ps[k].pid
  }

  /** No two programmes of the list share a pid. */
  predicate UniquePids(ps: seq<Programme>)
  {
    forall i, j :: 0 <= i < j < |ps| ==> ps[i].pid != ps[j].pid
  }

  /** Every programme of the list records a file only once downloaded. */
  predicate AllConsistent(ps: seq<Programme>)
  {
    forall k :: 0 <= k < |ps| ==> Consistent(ps[k])
  }

  /** One pass of the merge loop: the candidate is appended unless some
      programme already in the list has its pid. */
  function AddIfAbsent(ps: seq<Programme>, candidate: Programme): seq<Programme>
  {
    if candidate.pid in Pids(ps) then ps else ps + [candidate]
  }

  /** The merge loop over a search's candidates, in order; each candidate is
      checked against the list as it stands, earlier appends included. */
  function Merged(ps: seq<Programme>, candidates: seq<Programme>): seq<Programme>
    decreases |candidates|
  {
    if candidates == [] then ps
    else Merged(AddIfAbsent(ps, candidates[0]), candidates[1..])
  }

  /** The reference for what a merge appends: each candidate whose pid is
      neither in `seen` nor carried by an earlier candidate. */
  function FirstOccurrences(seen: set<string>, candidates: seq<Programme>): seq<Programme>
    decreases |candidates|
  {
    if candidates == [] then []
    else if candidates[0].pid in seen then FirstOccurrences(seen, candidates[1..])
    else [candidates[0]] + FirstOccurrences(seen + {candidates[0].pid}, candidates[1..])
  }

  lemma PidsSnoc(ps: seq<Programme>, p: Programme)
    ensures Pids(ps + [p]) == Pids(ps) + {p.pid}
  {
    var qs := ps + [p];
    assert forall k :: 0 <= k < |ps| ==> qs[k] == ps[k];
    assert qs[|ps|] == p;
  }

  lemma PidsAppend(ps: seq<Programme>, qs: seq<Programme>)
    ensures Pids(ps + qs) == Pids(ps) + Pids(qs)
  {
    var rs := ps + qs;
    assert forall k :: 0 <= k < |qs| ==> rs[|ps| + k] == qs[k];
    assert forall k :: 0 <= k < |rs| ==> rs[k] == if k < |ps| then ps[k] else qs[k - |ps|];
  }

  /** A merge appends exactly the first occurrences of the pids the catalog
      lacks, in candidate order, and changes nothing already there. */
  lemma {:induction false} MergedAppendsFirstOccurrences(ps: seq<Programme>, candidates: seq<Programme>)
    ensures Merged(ps, candidates) == ps + FirstOccurrences(Pids(ps), candidates)
    decreases |candidates|
  {
    if candidates == [] {
      assert ps + [] == ps;
    } else {
      var c := candidates[0];
      MergedAppendsFirstOccurrences(AddIfAbsent(ps, c), candidates[1..]);
      if c.pid !in Pids(ps) {
        PidsSnoc(ps, c);
        assert ps + [c] + FirstOccurrences(Pids(ps) + {c.pid}, candidates[1..])
            == ps + ([c] + FirstOccurrences(Pids(ps) + {c.pid}, candidates[1..]));
      }
    }
  }

  /** The pids of a list of candidates. */
  function CandidatePids(candidates: seq<Programme>): set<string>
  {
    set k | 0 <= k < |candidates| :: candidates[k].pid
  }

  lemma CandidatePidsCons(candidates: seq<Programme>)
    requires candidates != []
    ensures CandidatePids(candidates) == {candidates[0].pid} + CandidatePids(candidates[1..])
  {
    var rest := candidates[1..];
    assert forall k :: 0 < k < |candidates| ==> candidates[k] == rest[k - 1];
    assert forall k :: 0 <= k < |rest| ==> rest[k] == candidates[k + 1];
  }

  /** `FirstOccurrences` keeps no more than it is given, only candidates,
      and none whose pid was seen. */
  lemma {:induction false} FirstOccurrencesAreFresh(seen: set<string>, candidates: seq<Programme>)
    ensures var fs := FirstOccurrences(seen, candidates);
            |fs| <= |candidates|
            && forall k :: 0 <= k < |fs| ==> fs[k] in candidates && fs[k].pid !in seen
    decreases |candidates|
  {
    if candidates != [] {
      var c, rest := candidates[0], candidates[1..];
      if c.pid in seen {
        FirstOccurrencesAreFresh(seen, rest);
      } else {
        FirstOccurrencesAreFresh(seen + {c.pid}, rest);
        var fs := FirstOccurrences(seen, candidates);
        assert forall k :: 1 <= k < |fs| ==> fs[k] == FirstOccurrences(seen + {c.pid}, rest)[k - 1];
      }
    }
  }

  /** `FirstOccurrences` keeps no pid twice. */
  lemma {:induction false} FirstOccurrencesUnique(seen: set<string>, candidates: seq<Programme>)
    ensures UniquePids(FirstOccurrences(seen, candidates))
    decreases |candidates|
  {
    if candidates != [] {
      var c, rest := candidates[0], candidates[1..];
      if c.pid in seen {
        FirstOccurrencesUnique(seen, rest);
      } else {
        var tail := FirstOccurrences(seen + {c.pid}, rest);
        FirstOccurrencesUnique(seen + {c.pid}, rest);
        FirstOccurrencesAreFresh(seen + {c.pid}, rest);
        var fs := [c] + tail;
        forall i, j | 0 <= i < j < |fs| ensures fs[i].pid != fs[j].pid {
          assert fs[j] == tail[j - 1];
          if i > 0 { assert fs[i] == tail[i - 1]; }
        }
      }
    }
  }

  /** Every candidate's pid is either seen or kept by `FirstOccurrences`. */
  lemma {:induction false} FirstOccurrencesCover(seen: set<string>, candidates: seq<Programme>)
    ensures seen + Pids(FirstOccurrences(seen, candidates)) == seen + CandidatePids(candidates)
    decreases |candidates|
  {
    if candidates != [] {
      var c, rest := candidates[0], candidates[1..];
      CandidatePidsCons(candidates);
      if c.pid in seen {
        FirstOccurrencesCover(seen, rest);
      } else {
        var tail := FirstOccurrences(seen + {c.pid}, rest);
        FirstOccurrencesCover(seen + {c.pid}, rest);
        PidsAppend([c], tail);
        assert Pids([c]) == {c.pid} by { assert [c][0] == c; }
      }
    }
  }

  /** Merge is append-only: the catalog is a prefix of the result, which
      grows by at most the number of candidates. */
  lemma MergedIsAppendOnly(ps: seq<Programme>, candidates: seq<Programme>)
    ensures var r := Merged(ps, candidates);
            |ps| <= |r| <= |ps| + |candidates| && r[..|ps|] == ps
  {
    MergedAppendsFirstOccurrences(ps, candidates);
    FirstOccurrencesAreFresh(Pids(ps), candidates);
  }

  /** Unique pids before a merge means unique pids after it. */
  lemma MergedKeepsPidsUnique(ps: seq<Programme>, candidates: seq<Programme>)
    requires UniquePids(ps)
    ensures UniquePids(Merged(ps, candidates))
  {
    MergedAppendsFirstOccurrences(ps, candidates);
    var fs := FirstOccurrences(Pids(ps), candidates);
    FirstOccurrencesAreFresh(Pids(ps), candidates);
    FirstOccurrencesUnique(Pids(ps), candidates);
    var r := ps + fs;
    forall i, j | 0 <= i < j < |r| ensures r[i].pid != r[j].pid {
      if j >= |ps| {
        assert r[j] == fs[j - |ps|];
        if i >= |ps| { assert r[i] == fs[i - |ps|]; }
        else { assert r[i].pid in Pids(ps); }
      }
    }
  }

  /** After a merge the catalog's pids are its old pids and every
      candidate's pid. */
  lemma MergedPids(ps: seq<Programme>, candidates: seq<Programme>)
    ensures Pids(Merged(ps, candidates)) == Pids(ps) + CandidatePids(candidates)
  {
    MergedAppendsFirstOccurrences(ps, candidates);
    FirstOccurrencesCover(Pids(ps), candidates);
    PidsAppend(ps, FirstOccurrences(Pids(ps), candidates));
  }

  /** Candidates whose pids are all present change nothing. */
  lemma {:induction false} MergedKnownIsNoop(ps: seq<Programme>, candidates: seq<Programme>)
    requires forall k :: 0 <= k < |candidates| ==> candidates[k].pid in Pids(ps)
    ensures Merged(ps, candidates) == ps
    decreases |candidates|
  {
    if candidates != [] {
      MergedKnownIsNoop(ps, candidates[1..]);
    }
  }

  /** Merging the same candidates a second time leaves the catalog as the
      first merge left it. */
  lemma MergedIdempotent(ps: seq<Programme>, candidates: seq<Programme>)
    ensures Merged(Merged(ps, candidates), candidates) == Merged(ps, candidates)
  {
    MergedPids(ps, candidates);
    MergedKnownIsNoop(Merged(ps, candidates), candidates);
  }

  /** The files the staging directory holds after fetching `pid`; a pid
      with no entry left the directory empty. */
  function Staged(staging: map<string, seq<string>>, pid: string): seq<string>
  {
    if pid in staging then staging[pid] else []
  }

  /** One pass of the download loop: only a programme not yet downloaded is
      fetched. */
  function DownloadStep(p: Programme, staging: map<string, seq<string>>): (q: Programme)
    ensures q.downloaded && SameIdentity(p, q)
    ensures p.downloaded ==> q == p
    ensures !p.downloaded && Staged(staging, p.pid) == [] ==> q.filename == p.filename
    ensures !p.downloaded && Staged(staging, p.pid) != [] ==>
              q.filename == Some(Staged(staging, p.pid)[|Staged(staging, p.pid)| - 1])
  {
    if p.downloaded then p else Downloaded(p, Staged(staging, p.pid))
  }

  /** The download loop over the whole catalog, in order. */
  function DownloadedAll(ps: seq<Programme>, staging: map<string, seq<string>>): (r: seq<Programme>)
    ensures |r| == |ps|
  {
    if ps == [] then []
    else DownloadedAll(ps[..|ps| - 1], staging) + [DownloadStep(ps[|ps| - 1], staging)]
  }

  /** The download loop treats each programme on its own. */
  lemma {:induction false} DownloadedAllAt(ps: seq<Programme>, staging: map<string, seq<string>>)
    ensures forall k :: 0 <= k < |ps| ==> DownloadedAll(ps, staging)[k] == DownloadStep(ps[k], staging)
  {
    if ps != [] {
      var init := ps[..|ps| - 1];
      DownloadedAllAt(init, staging);
      assert forall k :: 0 <= k < |init| ==> ps[k] == init[k];
    }
  }

  /** After the download loop every programme is downloaded; one that
      already was is untouched; one that was not keeps its pid, name,
      episode, description and date, and records the last staged file if
      any was staged, its old file otherwise. */
  lemma {:induction false} DownloadedAllFacts(ps: seq<Programme>, staging: map<string, seq<string>>)
    ensures var r := DownloadedAll(ps, staging);
            |r| == |ps|
            && forall k :: 0 <= k < |ps| ==>
                 r[k].downloaded && SameIdentity(ps[k], r[k])
                 && (ps[k].downloaded ==> r[k] == ps[k])
                 && (!ps[k].downloaded ==>
                       r[k].filename == if Staged(staging, ps[k].pid) == [] then ps[k].filename
                                        else Some(Staged(staging, ps[k].pid)[|Staged(staging, ps[k].pid)| - 1]))
  {
    DownloadedAllAt(ps, staging);
  }

  /** The download loop keeps the pids, so it keeps them unique, and it
      never records a file without marking the programme downloaded. */
  lemma DownloadedAllKeepsInvariants(ps: seq<Programme>, staging: map<string, seq<string>>)
    ensures Pids(DownloadedAll(ps, staging)) == Pids(ps)
    ensures UniquePids(ps) ==> UniquePids(DownloadedAll(ps, staging))
    ensures AllConsistent(DownloadedAll(ps, staging))
  {
    DownloadedAllFacts(ps, staging);
    var r := DownloadedAll(ps, staging);
    assert forall k :: 0 <= k < |r| ==> r[k].pid == ps[k].pid;
  }

  /** What the search loop leaves: the catalog as merged so far, and the
      listing error that stopped it, if one did. */
  datatype Searched = Searched(catalog: seq<Programme>, failure: Option<ListingError>)

  /** The search loop of `load_feed`: each search's listing is parsed and
      merged in turn; a listing that fails to parse stops the loop. */
  function SearchAll(ps: seq<Programme>, listings: seq<string>, now: Dates.DateTime): Searched
    decreases |listings|
  {
    if listings == [] then Searched(ps, None)
    else match ParseListing(listings[0], now)
      case Err(e) => Searched(ps, Some(e))
      case Ok(candidates) => SearchAll(Merged(ps, candidates), listings[1..], now)
  }

  /** The search loop is append-only, keeps pids unique and, because parsed
      programmes carry no file, keeps every programme consistent. */
  lemma {:induction false} SearchAllKeepsInvariants(ps: seq<Programme>, listings: seq<string>, now: Dates.DateTime)
    requires UniquePids(ps) && AllConsistent(ps)
    ensures var r := SearchAll(ps, listings, now).catalog;
            |ps| <= |r| && r[..|ps|] == ps && UniquePids(r) && AllConsistent(r)
    decreases |listings|
  {
    if listings != [] {
      match ParseListing(listings[0], now) {
        case Err(_) =>
        case Ok(candidates) =>
          var m := Merged(ps, candidates);
          MergedIsAppendOnly(ps, candidates);
          MergedKeepsPidsUnique(ps, candidates);
          MergedAppendsFirstOccurrences(ps, candidates);
          FirstOccurrencesAreFresh(Pids(ps), candidates);
          ParsedAreNew(Text.Split(listings[0], '\n'), now, candidates);
          var fs := FirstOccurrences(Pids(ps), candidates);
          assert forall k :: 0 <= k < |m| ==> m[k] == if k < |ps| then ps[k] else fs[k - |ps|];
          SearchAllKeepsInvariants(m, listings[1..], now);
          var r := SearchAll(m, listings[1..], now).catalog;
          assert r[..|ps|] == r[..|m|][..|ps|];
      }
    }
  }

  /** The in-memory catalog of one feed. */
  class Feed {
    var programmes: seq<Programme>

    /** `Feed()`: the catalog of a feed with no history. */
    constructor ()
      ensures programmes == []
    {
      programmes := [];
    }

    /** The merge loop for one search's candidates: for each, a scan of the
        whole list sets `present`, and an absent candidate is appended. */
    method Merge(candidates: seq<Programme>)
      modifies this
      ensures programmes == Merged(old(programmes), candidates)
    {
      for n := 0 to |candidates|
        invariant Merged(programmes, candidates[n..]) == Merged(old(programmes), candidates)
      {
        assert candidates[n..][0] == candidates[n] && candidates[n..][1..] == candidates[n + 1..];
        var newProgramme := candidates[n];
        var present := false;
        for i := 0 to |programmes|
          invariant present <==> exists j :: 0 <= j < i && programmes[j].pid == newProgramme.pid
        {
          if newProgramme.pid == programmes[i].pid {
            present := true;
          }
        }
        if !present {
          programmes := programmes + [newProgramme];
        }
      }
    }

    /** The download loop: every programme not yet downloaded goes through
        `download_programme` with what the staging directory held for it. */
    method DownloadPending(staging: map<string, seq<string>>)
      modifies this
      ensures programmes == DownloadedAll(old(programmes), staging)
    {
      ghost var before := programmes;
      var count := |programmes|;
      for i := 0 to count
        invariant |programmes| == |before|
        invariant forall k :: 0 <= k < i ==> programmes[k] == DownloadStep(before[k], staging)
        invariant forall k :: i <= k < |before| ==> programmes[k] == before[k]
      {
        var programme := programmes[i];
        if !programme.downloaded {
          programme := DownloadProgramme(programme, Staged(staging, programme.pid));
          programmes := programmes[i := programme];
        }
      }
      DownloadedAllAt(before, staging);
    }

    /** The search loop: the listing printed for each search term, in
        order, is parsed and merged; a listing that fails to parse stops the
        loop with its error. */
    method Search(listings: seq<string>, now: Dates.DateTime) returns (failure: Option<ListingError>)
      modifies this
      ensures Searched(programmes, failure) == SearchAll(old(programmes), listings, now)
    {
      for n := 0 to |listings|
        invariant SearchAll(programmes, listings[n..], now) == SearchAll(old(programmes), listings, now)
      {
        assert listings[n..][0] == listings[n] && listings[n..][1..] == listings[n + 1..];
        var found := GetProgrammes(listings[n], now);
        if found.Err? {
          return Some(found.error);
        }
        Merge(found.value);
      }
      return None;
    }
  }
}
