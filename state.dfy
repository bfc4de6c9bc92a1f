/** The in-memory application state: recent donations, the top donation, the music and player status. */
module State {
  import opened Opt
  import opened Js
  import opened Records
  import opened Seqs

  /** `lastError`: `{id, at, message}`. */
  datatype ErrorRecord = ErrorRecord(id: string, at: int, message: string)

  /** What `addDonation` returns; `duplicate` is `None` where the returned object has no such field. */
  datatype AddResult = AddResult(duplicate: Option<bool>, newTop: bool, topDonation: Option<TopDonation>)

  /** The recent list after putting `d` in front and dropping from the back down to `max` entries. */
  function Admit(donations: seq<DonationEntry>, d: DonationEntry, max: nat): (r: seq<DonationEntry>)
    ensures |r| == Min(max, |donations| + 1)
    ensures max > 0 ==> r[0] == d
    ensures forall i :: 0 < i < |r| ==> r[i] == donations[i - 1]
  {
    var s := [d] + donations;
    if |s| <= max then s else s[..max]
  }

  /** The entries `Admit` drops. */
  function Evicted(donations: seq<DonationEntry>, d: DonationEntry, max: nat): seq<DonationEntry> {
    var s := [d] + donations;
    if |s| <= max then [] else s[max..]
  }

  /** The non-empty ids of `s`: the ones the eviction loop deletes from the id set. */
  function TruthyIds(s: seq<DonationEntry>): set<string> {
    set i | 0 <= i < |s| && s[i].id != "" :: s[i].id
  }

  /** Whether `d` takes the top spot: there is none yet, or its value is strictly greater. */
  predicate BeatsTop(top: Option<TopDonation>, d: DonationEntry) {
    top.None? || d.value > top.value.value
  }

  function TopOf(d: DonationEntry): TopDonation {
    TopDonation(d.id, d.at, d.value, d.sender, d.message)
  }

  /** The top snapshot after a non-duplicate donation. */
  function NextTop(top: Option<TopDonation>, d: DonationEntry): (r: Option<TopDonation>)
    ensures r.Some?
    ensures r.value.value >= d.value
    ensures top.Some? ==> r.value.value >= top.value.value
    ensures r != top <==> BeatsTop(top, d) && top != Some(TopOf(d))
  {
    if BeatsTop(top, d) then Some(TopOf(d)) else top
  }

  /** Ties do not replace the top donation. */
  lemma TieKeepsTop(top: Option<TopDonation>, d: DonationEntry)
    requires top.Some? && d.value == top.value.value
    ensures NextTop(top, d) == top
  {
  }

  /** The top value never decreases over any run of donations. */
  function TopAfterAll(top: Option<TopDonation>, ds: seq<DonationEntry>): Option<TopDonation>
    decreases |ds|
  {
    if ds == [] then top else TopAfterAll(NextTop(top, ds[0]), ds[1..])
  }

  lemma {:induction false} TopMonotone(top: Option<TopDonation>, ds: seq<DonationEntry>)
    requires top.Some?
    ensures TopAfterAll(top, ds).Some?
    ensures TopAfterAll(top, ds).value.value >= top.value.value
    ensures forall i :: 0 <= i < |ds| ==> TopAfterAll(top, ds).value.value >= ds[i].value
    decreases |ds|
  {
    if ds != [] {
      var next := NextTop(top, ds[0]);
      TopMonotone(next, ds[1..]);
      assert forall i :: 1 <= i < |ds| ==> ds[i] == ds[1..][i - 1];
    }
  }

  class AppState {
    const maxDonations: nat
    var donations: seq<DonationEntry>
    /** `_donationIds` */
    var donationIds: set<string>
    var topDonation: Option<TopDonation>
    /** `music.current` and `music.queue` */
    var current: Option<Track>
    var queue: seq<Track>
    /** `player.connected`, `player.ready`, `player.lastSeenAt` */
    var connected: bool
    var ready: bool
    var lastSeenAt: Option<int>
    var lastWebhookAt: Option<int>
    var lastError: Option<ErrorRecord>

    /**
     * The list stays within its bound and holds each id once; the id set holds every listed id
     * and, apart from the empty id (which eviction never deletes), only listed ids.
     */
    ghost predicate Valid()
      reads this
    {
      && |donations| <= maxDonations
      && (forall i, j :: 0 <= i < j < |donations| ==> donations[i].id != donations[j].id)
      && (forall i :: 0 <= i < |donations| ==> donations[i].id in donationIds)
      && (forall id :: id in donationIds && id != "" ==> exists i :: 0 <= i < |donations| && donations[i].id == id)
    }

    constructor(maxDonations: nat)
      ensures Valid()
      ensures this.maxDonations == maxDonations
      ensures donations == [] && donationIds == {} && topDonation == None
      ensures current == None && queue == []
      ensures !connected && !ready && lastSeenAt == None
      ensures lastWebhookAt == None && lastError == None
    {
      this.maxDonations := maxDonations;
      donations := [];
      donationIds := {};
      topDonation := None;
      current := None;
      queue := [];
      connected := false;
      ready := false;
      lastSeenAt := None;
      lastWebhookAt := None;
      lastError := None;
    }

    /** Whether `addDonation` would treat `id` as a re-delivery. */
    predicate Seen(id: string)
      reads this
    {
      id in donationIds
    }

    /** A non-empty id is seen exactly while an entry with it is listed; an evicted one is accepted again. */
    lemma SeenIffListed(id: string)
      requires Valid() && id != ""
      ensures Seen(id) <==> exists i :: 0 <= i < |donations| && donations[i].id == id
    {
    }

    /** `recordError(message)`, with the id and the clock passed in. */
    method RecordError(id: string, now: int, message: Value)
      modifies this
      ensures lastError == Some(ErrorRecord(id, now, ToStr(message)))
      ensures donations == old(donations) && donationIds == old(donationIds) && topDonation == old(topDonation)
      ensures current == old(current) && queue == old(queue)
      ensures connected == old(connected) && ready == old(ready) && lastSeenAt == old(lastSeenAt)
      ensures lastWebhookAt == old(lastWebhookAt)
    {
      lastError := Some(ErrorRecord(id, now, ToStr(message)));
    }

    /** `addDonation(d)` at time `now`. */
    method AddDonation(d: DonationEntry, now: int) returns (res: AddResult)
      requires Valid()
      modifies this
      ensures Valid()
      ensures old(Seen(d.id)) ==>
        && res == AddResult(Some(true), false, old(topDonation))
        && donations == old(donations) && donationIds == old(donationIds)
        && topDonation == old(topDonation) && lastWebhookAt == old(lastWebhookAt)
      ensures !old(Seen(d.id)) ==>
        && donations == Admit(old(donations), d, maxDonations)
        && donationIds == (old(donationIds) + {d.id}) - TruthyIds(Evicted(old(donations), d, maxDonations))
        && lastWebhookAt == Some(now)
        && topDonation == NextTop(old(topDonation), d)
        && res.newTop == BeatsTop(old(topDonation), d)
        && res.duplicate == (if res.newTop then None else Some(false))
        && res.topDonation == topDonation
      ensures current == old(current) && queue == old(queue)
      ensures connected == old(connected) && ready == old(ready) && lastSeenAt == old(lastSeenAt)
      ensures lastError == old(lastError)
    {
      if d.id in donationIds {
        return AddResult(Some(true), false, topDonation);
      }
      AdmitFront(d);
      Evict(d);
      lastWebhookAt := Some(now);
      if BeatsTop(topDonation, d) {
        topDonation := Some(TopOf(d));
        return AddResult(None, true, topDonation);
      }
      return AddResult(Some(false), false, topDonation);
    }

    /** `donations.unshift(d)` and `_donationIds.add(d.id)`. */
    method AdmitFront(d: DonationEntry)
      requires Valid() && d.id !in donationIds
      modifies this
      ensures donations == [d] + old(donations)
      ensures donationIds == old(donationIds) + {d.id}
      ensures |donations| <= maxDonations + 1
      ensures forall i, j :: 0 <= i < j < |donations| ==> donations[i].id != donations[j].id
      ensures forall i :: 0 <= i < |donations| ==> donations[i].id in donationIds
      ensures forall id :: id in donationIds && id != "" ==> exists i :: 0 <= i < |donations| && donations[i].id == id
      ensures topDonation == old(topDonation) && lastWebhookAt == old(lastWebhookAt) && lastError == old(lastError)
      ensures current == old(current) && queue == old(queue)
      ensures connected == old(connected) && ready == old(ready) && lastSeenAt == old(lastSeenAt)
    {
      var before := donations;
      donations := [d] + donations;
      donationIds := donationIds + {d.id};
      forall id | id in donationIds && id != ""
        ensures exists i :: 0 <= i < |donations| && donations[i].id == id
      {
        if id == d.id {
          assert donations[0].id == id;
        } else {
          var i :| 0 <= i < |before| && before[i].id == id;
          assert donations[i + 1].id == id;
        }
      }
    }

    /** The `pop` loop: drop from the back until the bound holds, deleting each truthy removed id. */
    method Evict(ghost d: DonationEntry)
      requires |donations| <= maxDonations + 1 && |donations| > 0 && donations[0] == d
      requires forall i, j :: 0 <= i < j < |donations| ==> donations[i].id != donations[j].id
      requires forall i :: 0 <= i < |donations| ==> donations[i].id in donationIds
      requires forall id :: id in donationIds && id != "" ==> exists i :: 0 <= i < |donations| && donations[i].id == id
      modifies this
      ensures Valid()
      ensures donations == Admit(old(donations[1..]), d, maxDonations)
      ensures donationIds == old(donationIds) - TruthyIds(Evicted(old(donations[1..]), d, maxDonations))
      ensures topDonation == old(topDonation) && lastWebhookAt == old(lastWebhookAt) && lastError == old(lastError)
      ensures current == old(current) && queue == old(queue)
      ensures connected == old(connected) && ready == old(ready) && lastSeenAt == old(lastSeenAt)
    {
      ghost var all := donations;
      ghost var ids := donationIds;
      assert all == [d] + all[1..];
      var ds, idSet := donations, donationIds;
      while |ds| > maxDonations
        invariant |ds| <= |all| && ds == all[..|ds|]
        invariant |ds| >= Min(maxDonations, |all|)
        invariant idSet == ids - TruthyIds(all[|ds|..])
        decreases |ds|
      {
        var n := |ds| - 1;
        var removed := ds[n];
        assert all[n..] == [removed] + all[n + 1..];
        assert TruthyIds(all[n..]) == TruthyIds(all[n + 1..]) + (if removed.id != "" then {removed.id} else {});
        ds := ds[..n];
        if removed.id != "" {
          idSet := idSet - {removed.id};
        }
      }
      donations, donationIds := ds, idSet;
      EvictedValid(all, ids, |donations|);
    }

    /** What is left after evicting is valid, since the ids are distinct. */
    lemma EvictedValid(all: seq<DonationEntry>, ids: set<string>, k: nat)
      requires k <= |all| && k <= maxDonations
      requires forall i, j :: 0 <= i < j < |all| ==> all[i].id != all[j].id
      requires forall i :: 0 <= i < |all| ==> all[i].id in ids
      requires forall id :: id in ids && id != "" ==> exists i :: 0 <= i < |all| && all[i].id == id
      requires donations == all[..k] && donationIds == ids - TruthyIds(all[k..])
      ensures Valid()
    {
      forall id | id in donationIds && id != ""
        ensures exists i :: 0 <= i < |donations| && donations[i].id == id
      {
        var i :| 0 <= i < |all| && all[i].id == id;
        assert donations[i].id == id;
      }
    }

    /** `setPlayerStatus({connected, ready})`: only boolean parts are applied; the clock always is. */
    method SetPlayerStatus(newConnected: Value, newReady: Value, now: int)
      modifies this
      ensures connected == if newConnected.Bool? then newConnected.b else old(connected)
      ensures ready == if newReady.Bool? then newReady.b else old(ready)
      ensures lastSeenAt == Some(now)
      ensures donations == old(donations) && donationIds == old(donationIds) && topDonation == old(topDonation)
      ensures current == old(current) && queue == old(queue)
      ensures lastWebhookAt == old(lastWebhookAt) && lastError == old(lastError)
    {
      if newConnected.Bool? {
        connected := newConnected.b;
      }
      if newReady.Bool? {
        ready := newReady.b;
      }
      lastSeenAt := Some(now);
    }

    method SetMusicQueue(q: seq<Track>)
      modifies this
      ensures queue == q
      ensures current == old(current)
      ensures donations == old(donations) && donationIds == old(donationIds) && topDonation == old(topDonation)
      ensures connected == old(connected) && ready == old(ready) && lastSeenAt == old(lastSeenAt)
      ensures lastWebhookAt == old(lastWebhookAt) && lastError == old(lastError)
    {
      queue := q;
    }

    method SetMusicCurrent(c: Option<Track>)
      modifies this
      ensures current == c
      ensures queue == old(queue)
      ensures donations == old(donations) && donationIds == old(donationIds) && topDonation == old(topDonation)
      ensures connected == old(connected) && ready == old(ready) && lastSeenAt == old(lastSeenAt)
      ensures lastWebhookAt == old(lastWebhookAt) && lastError == old(lastError)
    {
      current := c;
    }
  }
}
