/**
 * One known episode (`Programme`, iplayercast.py) and the state change that
 * downloading it makes (`download_programme`).
 */
module Programmes {
  import opened Wrappers
  import Dates

  /** A programme: the four fields the search listing supplies, whether it
      has been downloaded, the name of its media file once one was found, and
      the time the record was created. */
  datatype Programme = Programme(pid: string, name: string, episode: string, desc: string,
                                 downloaded: bool, filename: Option<string>,
                                 dateLoaded: Dates.DateTime)

  /** A record as `Programme()` creates it and the listing parser fills it
      in: not downloaded, no file, stamped with the given clock reading. */
  function NewProgramme(pid: string, name: string, episode: string, desc: string,
                        now: Dates.DateTime): Programme
  {
    Programme(pid, name, episode, desc, false, None, now)
  }

  /** The fields nothing after creation ever changes. */
  predicate SameIdentity(p: Programme, q: Programme)
  {
    p.pid == q.pid && p.name == q.name && p.episode == q.episode && p.desc == q.desc
    && p.dateLoaded == q.dateLoaded
  }

  /** A file name is recorded only on a downloaded programme. */
  predicate Consistent(p: Programme)
  {
    p.filename.Some? ==> p.downloaded
  }

  /** The programme after a download whose staging directory listed
      `staged`: each listed file in turn is recorded as the programme's file,
      so the last one wins, and the programme is marked downloaded whether or
      not any file was staged. */
  function Downloaded(p: Programme, staged: seq<string>): (q: Programme)
    ensures q.downloaded && SameIdentity(p, q)
    ensures staged == [] ==> q.filename == p.filename
    ensures staged != [] ==> q.filename.Some? && q.filename.value == staged[|staged| - 1]
  {
    p.(filename := if staged == [] then p.filename else Some(staged[|staged| - 1]),
       downloaded := true)
  }

  /** `download_programme` after the fetch tool has run: the walk over the
      staging directory, one file name at a time, then the downloaded mark. */
  method DownloadProgramme(p: Programme, staged: seq<string>) returns (q: Programme)
    ensures q.downloaded && SameIdentity(p, q)
    ensures staged != [] ==> q.filename == Some(staged[|staged| - 1])
    ensures staged == [] ==> q.filename == p.filename
    ensures q == Downloaded(p, staged)
  {
    q := p;
    for i := 0 to |staged|
      invariant q == p.(filename := if i == 0 then p.filename else Some(staged[i - 1]))
    {
      q := q.(filename := Some(staged[i]));
    }
    q := q.(downloaded := true);
  }
}
