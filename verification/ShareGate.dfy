/**
 Confirm-before-share (db.rs): which cached blobs are offered to the mesh, as the user's
 share choices, confirmations, revocations and deletions pile up.
 */
module ShareGate {
  import opened Common

  type Blob = nat
  type Sha = nat

  /** A row of `share_overrides`. */
  datatype Row = Row(sha: Sha, shared: bool, confirmedGated: bool)

  datatype Manifest = Manifest(
    blake3s: set<Blob>, sha256s: set<Sha>, gated: bool, restrictive: bool, publicProvenance: bool)
  {
    predicate NeedsConfirmation() { gated || restrictive }

    predicate AutoShareable(includeGated: bool) {
      publicProvenance && (includeGated || !NeedsConfirmation())
    }
  }

  /** The tables involved; `cache` gives a cached blob's sha256. */
  datatype Tables = Tables(
    overrides: map<Blob, Row>, cache: map<Blob, Sha>, manifests: map<nat, Manifest>, shareGated: bool)
  {
    /** A manifest lists a blob by blake3, or by the sha256 of its cached copy. */
    predicate Lists(id: nat, b: Blob) {
      id in manifests && (b in manifests[id].blake3s || (b in cache && cache[b] in manifests[id].sha256s))
    }

    predicate IsGatedOrRestrictive(b: Blob) {
      exists id :: id in manifests && Lists(id, b) && manifests[id].NeedsConfirmation()
    }

    function Override(b: Blob): Option<bool> { if b in overrides then Some(overrides[b].shared) else None }

    predicate Confirmed(b: Blob) { b in overrides && overrides[b].confirmedGated }

    predicate SharedByDefault(b: Blob) {
      exists id :: id in manifests && Lists(id, b) && manifests[id].AutoShareable(shareGated)
    }

    /** `is_blob_shareable`. */
    predicate IsShareable(b: Blob) {
      if IsGatedOrRestrictive(b) then Override(b) != Some(false) && Confirmed(b)
      else if Override(b).Some? then Override(b).value
      else SharedByDefault(b)
    }
  }

  datatype Op =
    | SetShare(b: Blob, sha: Sha, on: bool)
    | Confirm(b: Blob, sha: Sha)
    | RevokeAll
    | Delete(b: Blob)
    | CacheBlob(b: Blob, sha: Sha)
    | PutManifest(id: nat, m: Manifest)
    | DropManifest(id: nat)
    | ShareGatedFlag(on: bool)

  function Revoked(o: map<Blob, Row>): map<Blob, Row> {
    map b | b in o :: if o[b].confirmedGated then o[b].(shared := false, confirmedGated := false) else o[b]
  }

  function Apply(t: Tables, op: Op): Tables {
    match op
    case SetShare(b, sha, on) => t.(overrides := t.overrides[b := Row(sha, on, t.Confirmed(b))])
    case Confirm(b, sha) => t.(overrides := t.overrides[b := Row(sha, true, true)])
    case RevokeAll => t.(overrides := Revoked(t.overrides))
    case Delete(b) => t.(cache := t.cache - {b}, overrides := t.overrides - {b})
    case CacheBlob(b, sha) => t.(cache := t.cache[b := sha])
    case PutManifest(id, m) => t.(manifests := t.manifests[id := m])
    case DropManifest(id) => t.(manifests := t.manifests - {id})
    case ShareGatedFlag(on) => t.(shareGated := on)
  }

  /** The database object, its tables updated in place. */
  class Db {
    var overrides: map<Blob, Row>
    var cache: map<Blob, Sha>
    var manifests: map<nat, Manifest>
    var shareGated: bool

    ghost function Content(): Tables
      reads this
    {
      Tables(overrides, cache, manifests, shareGated)
    }

    method SetShareOverride(b: Blob, sha: Sha, on: bool)
      modifies `overrides
      ensures Content() == Apply(old(Content()), SetShare(b, sha, on))
    {
      if b in overrides {
        overrides := overrides[b := overrides[b].(sha := sha, shared := on)];
      } else {
        overrides := overrides[b := Row(sha, on, false)];
      }
    }

    method ConfirmGatedShare(b: Blob, sha: Sha)
      modifies `overrides
      ensures Content() == Apply(old(Content()), Confirm(b, sha))
    {
      overrides := overrides[b := Row(sha, true, true)];
    }

    /** Reports what was confirmed, each blob with the sha256 of its cached copy if it has one. */
    method ClearAllGatedConfirmations() returns (cleared: map<Blob, Sha>)
      modifies `overrides
      ensures Content() == Apply(old(Content()), RevokeAll)
      ensures forall b :: b in cleared <==> old(Content()).Confirmed(b)
      ensures forall b :: b in cleared ==>
        b in old(overrides) && cleared[b] == if b in cache then cache[b] else old(overrides)[b].sha
    {
      cleared := map b | b in overrides && overrides[b].confirmedGated ::
        if b in cache then cache[b] else overrides[b].sha;
      overrides := map b | b in overrides ::
        if b in cleared then overrides[b].(shared := false, confirmedGated := false) else overrides[b];
    }

    method DeleteCacheBlob(b: Blob)
      modifies `overrides, `cache
      ensures Content() == Apply(old(Content()), Delete(b))
    {
      cache := cache - {b};
      overrides := overrides - {b};
    }
  }

  // ----- Histories -----

  function ApplyAll(t: Tables, h: seq<Op>): Tables
    decreases |h|
  {
    if h == [] then t else Apply(ApplyAll(t, h[..|h| - 1]), h[|h| - 1])
  }

  predicate IsConfirm(op: Op, b: Blob) { op.Confirm? && op.b == b }

  predicate IsStop(op: Op, b: Blob) { op.SetShare? && op.b == b && !op.on }

  /** A choice to share, or a confirmation, which shares too. */
  predicate IsShare(op: Op, b: Blob) { IsConfirm(op, b) || (op.SetShare? && op.b == b && op.on) }

  /** A confirmation at `i` with no later revoke-all and no later deletion of the blob. */
  ghost predicate Standing(h: seq<Op>, b: Blob, i: int) {
    0 <= i < |h| && IsConfirm(h[i], b)
    && forall j :: i < j < |h| ==> h[j] != RevokeAll && h[j] != Delete(b)
  }

  /** A stop at `i` that no later share choice answers. */
  ghost predicate StopAt(h: seq<Op>, b: Blob, i: int) {
    0 <= i < |h| && IsStop(h[i], b) && forall j :: i < j < |h| ==> !IsShare(h[j], b)
  }

  ghost predicate HasStanding(h: seq<Op>, b: Blob) { exists i :: Standing(h, b, i) }

  ghost predicate IsStopped(h: seq<Op>, b: Blob) { exists i :: StopAt(h, b, i) }

  lemma StandingSnoc(h: seq<Op>, op: Op, b: Blob)
    ensures HasStanding(h + [op], b) <==>
      IsConfirm(op, b) || (op != RevokeAll && op != Delete(b) && HasStanding(h, b))
  {
    var g := h + [op];
    if IsConfirm(op, b) {
      assert Standing(g, b, |h|);
    } else {
      if HasStanding(g, b) {
        var i :| Standing(g, b, i);
        assert g[|h|] == op && Standing(h, b, i) by {
          assert forall j :: i < j < |h| ==> h[j] == g[j];
        }
      }
      if op != RevokeAll && op != Delete(b) && HasStanding(h, b) {
        var i :| Standing(h, b, i);
        assert forall j :: i < j < |g| ==> g[j] == if j < |h| then h[j] else op;
        assert Standing(g, b, i);
      }
    }
  }

  lemma StopSnoc(h: seq<Op>, op: Op, b: Blob)
    ensures IsStopped(h + [op], b) <==>
      IsStop(op, b) || (!IsShare(op, b) && IsStopped(h, b))
  {
    var g := h + [op];
    if IsStop(op, b) {
      assert StopAt(g, b, |h|);
    } else {
      if IsStopped(g, b) {
        var i :| StopAt(g, b, i);
        assert g[|h|] == op && StopAt(h, b, i) by {
          assert forall j :: i < j < |h| ==> h[j] == g[j];
        }
      }
      if !IsShare(op, b) && IsStopped(h, b) {
        var i :| StopAt(h, b, i);
        assert forall j :: i < j < |g| ==> g[j] == if j < |h| then h[j] else op;
        assert StopAt(g, b, i);
      }
    }
  }

  lemma {:induction false} RowsFollowHistory(t: Tables, h: seq<Op>, b: Blob)
    requires t.overrides == map[]
    ensures ApplyAll(t, h).Confirmed(b) <==> HasStanding(h, b)
    ensures ApplyAll(t, h).Confirmed(b) ==> (ApplyAll(t, h).overrides[b].shared <==> !IsStopped(h, b))
    decreases |h|
  {
    if h != [] {
      var init, op := h[..|h| - 1], h[|h| - 1];
      assert h == init + [op];
      RowsFollowHistory(t, init, b);
      StandingSnoc(init, op, b);
      StopSnoc(init, op, b);
    }
  }

  /**
   Over every history, a blob listed by any gated or restrictive manifest is offered exactly
   when a confirmation stands and the latest share choice is not a stop -- whatever the global
   flag says and whatever open manifests list it too.
   */
  lemma GatedSharesOnlyWhenConfirmed(t: Tables, h: seq<Op>, b: Blob, id: nat)
    requires t.overrides == map[]
    requires var now := ApplyAll(t, h);
      id in now.manifests && (now.manifests[id].gated || now.manifests[id].restrictive)
      && (b in now.manifests[id].blake3s || (b in now.cache && now.cache[b] in now.manifests[id].sha256s))
    ensures ApplyAll(t, h).IsShareable(b) <==> HasStanding(h, b) && !IsStopped(h, b)
  {
    RowsFollowHistory(t, h, b);
    assert ApplyAll(t, h).Lists(id, b);
  }

  // ----- Blobs that no gated or restrictive manifest lists -----

  predicate IsChoice(op: Op, b: Blob) { IsShare(op, b) || IsStop(op, b) }

  /** A choice at `i` with no later deletion of the blob. */
  ghost predicate ChoiceAt(h: seq<Op>, b: Blob, i: int) {
    0 <= i < |h| && IsChoice(h[i], b) && forall j :: i < j < |h| ==> h[j] != Delete(b)
  }

  ghost predicate HasChosen(h: seq<Op>, b: Blob) { exists i :: ChoiceAt(h, b, i) }

  /** The event ends an earlier choice to share; a revoke-all ends only what a confirmation that
      stands has shared. */
  ghost predicate EndsShare(h: seq<Op>, b: Blob, j: int)
    requires 0 <= j < |h|
  {
    IsStop(h[j], b) || h[j] == Delete(b) || (h[j] == RevokeAll && HasStanding(h[..j], b))
  }

  ghost predicate ShareAt(h: seq<Op>, b: Blob, i: int) {
    0 <= i < |h| && IsShare(h[i], b) && forall j :: i < j < |h| ==> !EndsShare(h, b, j)
  }

  ghost predicate IsShared(h: seq<Op>, b: Blob) { exists i :: ShareAt(h, b, i) }

  lemma ChosenSnoc(h: seq<Op>, op: Op, b: Blob)
    ensures HasChosen(h + [op], b) <==> IsChoice(op, b) || (op != Delete(b) && HasChosen(h, b))
  {
    var g := h + [op];
    if IsChoice(op, b) {
      assert ChoiceAt(g, b, |h|);
    } else {
      if HasChosen(g, b) {
        var i :| ChoiceAt(g, b, i);
        assert g[|h|] == op && ChoiceAt(h, b, i) by {
          assert forall j :: i < j < |h| ==> h[j] == g[j];
        }
      }
      if op != Delete(b) && HasChosen(h, b) {
        var i :| ChoiceAt(h, b, i);
        assert forall j :: i < j < |g| ==> g[j] == if j < |h| then h[j] else op;
        assert ChoiceAt(g, b, i);
      }
    }
  }

  /** What ended a share before, ends it in every longer history. */
  lemma EndsSame(h: seq<Op>, op: Op, b: Blob, j: int)
    requires 0 <= j < |h|
    ensures EndsShare(h + [op], b, j) <==> EndsShare(h, b, j)
  {
    assert (h + [op])[..j] == h[..j] && (h + [op])[j] == h[j];
  }

  lemma SharedSnoc(h: seq<Op>, op: Op, b: Blob)
    ensures IsShared(h + [op], b) <==>
      IsShare(op, b)
      || (!IsStop(op, b) && op != Delete(b) && !(op == RevokeAll && HasStanding(h, b)) && IsShared(h, b))
  {
    var g := h + [op];
    assert g[..|h|] == h && g[|h|] == op;
    if IsShare(op, b) {
      assert ShareAt(g, b, |h|);
    } else {
      forall j | 0 <= j < |h| ensures EndsShare(g, b, j) <==> EndsShare(h, b, j) {
        EndsSame(h, op, b, j);
      }
      if IsShared(g, b) {
        var i :| ShareAt(g, b, i);
        assert !EndsShare(g, b, |h|) && ShareAt(h, b, i);
      }
      if !EndsShare(g, b, |h|) && IsShared(h, b) {
        var i :| ShareAt(h, b, i);
        assert ShareAt(g, b, i);
      }
    }
  }

  lemma {:induction false} ChoicesFollowHistory(t: Tables, h: seq<Op>, b: Blob)
    requires t.overrides == map[]
    ensures b in ApplyAll(t, h).overrides <==> HasChosen(h, b)
    ensures b in ApplyAll(t, h).overrides ==> (ApplyAll(t, h).overrides[b].shared <==> IsShared(h, b))
    decreases |h|
  {
    if h != [] {
      var init, op := h[..|h| - 1], h[|h| - 1];
      assert h == init + [op];
      ChoicesFollowHistory(t, init, b);
      RowsFollowHistory(t, init, b);
      ChosenSnoc(init, op, b);
      SharedSnoc(init, op, b);
    }
  }

  /**
   Over every history, a blob that no gated or restrictive manifest lists is offered by the
   user's standing choice, if there is one, and otherwise exactly when a manifest of public
   provenance lists it.
   */
  lemma OpenSharesByChoice(t: Tables, h: seq<Op>, b: Blob)
    requires t.overrides == map[]
    requires var now := ApplyAll(t, h);
      forall id ::
        (id in now.manifests
         && (b in now.manifests[id].blake3s || (b in now.cache && now.cache[b] in now.manifests[id].sha256s))) ==>
          !now.manifests[id].gated && !now.manifests[id].restrictive
    ensures HasChosen(h, b) ==> (ApplyAll(t, h).IsShareable(b) <==> IsShared(h, b))
    ensures !HasChosen(h, b) ==>
      (ApplyAll(t, h).IsShareable(b) <==>
        var now := ApplyAll(t, h);
        exists id :: id in now.manifests && now.manifests[id].publicProvenance
          && (b in now.manifests[id].blake3s || (b in now.cache && now.cache[b] in now.manifests[id].sha256s)))
  {
    ChoicesFollowHistory(t, h, b);
    var now := ApplyAll(t, h);
    assert !now.IsGatedOrRestrictive(b);
    assert forall id :: id in now.manifests && now.manifests[id].publicProvenance && now.Lists(id, b) ==>
      now.manifests[id].AutoShareable(now.shareGated);
  }
}
