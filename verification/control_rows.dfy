// The other rows the control repository updates in place, each method one transaction
// (src/adaptive_quant/persistence/control.py:342-364,475-521).
module ControlRows {
  import opened Wrappers
  import C = Settings
  import T = TradingMode
  import U = Uploads

  // One line of the change history, filed under the revision it made.
  datatype Change = Change(revision: nat, path: string, actor: string)

  class ControlRepository {
    var uploads: map<int, U.Upload>
    var config: T.Config
    var history: seq<Change>

    // The history is in revision order and names no revision that was not saved.
    ghost predicate Valid()
      reads this
    {
      && (forall i :: 0 <= i < |history| ==> 1 <= history[i].revision <= config.revision)
      && (forall i, j :: 0 <= i < j < |history| ==> history[i].revision <= history[j].revision)
    }

    constructor ()
      ensures Valid() && uploads == map[] && config == T.Config(0, map[], map[]) && history == []
    {
      uploads, config, history := map[], T.Config(0, map[], map[]), [];
    }

    method SetUploadStatus(id: int, status: U.UploadStatus, jobId: Option<int>, allowed: Option<set<U.UploadStatus>>)
      returns (ok: bool)
      requires Valid()
      modifies this`uploads
      ensures Valid()
      ensures var next := U.SetStatus(U.INITIAL.(uploads := old(uploads)), id, status, jobId, allowed);
        ok == next.Some? && uploads == if ok then next.value.uploads else old(uploads)
    {
      if id !in uploads || (allowed.Some? && uploads[id].status !in allowed.value) {
        return false;
      }
      var row := uploads[id];
      row := row.(status := status);
      if jobId.Some? {
        row := row.(jobId := jobId);
      }
      if status == U.Discarded {
        row := row.(content := []);
      }
      uploads := uploads[id := row];
      return true;
    }

    // Optimistic concurrency: saved, under the next revision and with its history lines,
    // exactly when nobody saved since the caller's read - the save the handlers' steps use.
    method SaveRuntimeConfig(expected: nat, overlay: T.OverlayMap, overrides: map<string, C.Entry>,
                             paths: seq<string>, actor: string)
      returns (revision: Option<nat>)
      requires Valid()
      modifies this`config, this`history
      ensures Valid()
      ensures revision == if expected == old(config).revision then Some(expected + 1) else None
      ensures config == if revision.Some? then T.Config(expected + 1, overlay, overrides) else old(config)
      ensures forall d: T.Deployment, s: T.System :: s.config == old(config) && d.accepts(overlay, overrides) ==>
        T.Save(d, s, expected, overlay, overrides) == s.(config := config)
      ensures revision.None? ==> history == old(history)
      ensures revision.Some? ==> |history| == |old(history)| + |paths| && history[..|old(history)|] == old(history)
      ensures revision.Some? ==>
        forall i :: 0 <= i < |paths| ==> history[|old(history)| + i] == Change(expected + 1, paths[i], actor)
    {
      if config.revision != expected {
        return None;
      }
      config := T.Config(expected + 1, overlay, overrides);
      for i := 0 to |paths|
        invariant Valid() && config == T.Config(expected + 1, overlay, overrides)
        invariant |history| == |old(history)| + i && history[..|old(history)|] == old(history)
        invariant forall k :: 0 <= k < i ==> history[|old(history)| + k] == Change(expected + 1, paths[k], actor)
      {
        history := history + [Change(expected + 1, paths[i], actor)];
      }
      return Some(expected + 1);
    }
  }
}
