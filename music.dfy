/**
 * The music player of `src/actions/music.js`: the track being played and the
 * queue behind it, kept in the application state, and the messages sent to
 * the player page. The socket broadcasts are recorded in the ghost list
 * `emitted`; the clock and the track ids are passed in.
 */
module Music {
  import opened Opt
  import opened Js
  import opened Records
  import opened Rules
  import opened State

  /** A broadcast: `state:update`, `music:play` with its track, or `music:stop`. */
  datatype Emit = StateUpdate | MusicPlay(track: Track) | MusicStop

  /** `ctx.videoId` is truthy. */
  predicate HasVideo(ctx: Context) {
    ctx.videoId.Some? && ctx.videoId.value != ""
  }

  /** `buildTrack({donation, ctx, vip})` with the id and the clock passed in: a track only for a playable URL. */
  function BuildTrack(donation: DonationEntry, ctx: Context, vip: bool, id: string, now: int): (r: Option<Track>)
    ensures r.Some? <==> HasUrl(ctx) && HasVideo(ctx)
    ensures r.Some? ==> r.value.url == ctx.url.value && r.value.videoId == ctx.videoId.value && r.value.vip == vip
    ensures r.Some? ==> r.value.requestedBy == donation.sender && r.value.value == donation.value && r.value.message == donation.message
  {
    if !HasUrl(ctx) || !HasVideo(ctx) then None
    else Some(Track(id, now, ctx.url.value, ctx.videoId.value, vip, donation.sender, donation.value, donation.message))
  }

  /** The tracks still to be heard, the current one first. */
  function Pending(current: Option<Track>, queue: seq<Track>): (r: seq<Track>)
    ensures |r| == |queue| + (if current.Some? then 1 else 0)
  {
    (if current.Some? then [current.value] else []) + queue
  }

  class MusicManager {
    const state: AppState
    /** `interruptBehavior || "drop"` */
    const interruptBehavior: Value
    ghost var emitted: seq<Emit>

    constructor(state: AppState, interruptBehavior: Value)
      ensures this.state == state
      ensures this.interruptBehavior == Or(interruptBehavior, Str("drop"))
      ensures emitted == []
    {
      this.state := state;
      this.interruptBehavior := Or(interruptBehavior, Str("drop"));
      emitted := [];
    }

    /** Whether an interrupted track goes back to the front of the queue. */
    predicate Resumes() {
      interruptBehavior == Str("resume")
    }

    /** `onPlayerConnected()` at time `now`. */
    method OnPlayerConnected(now: int)
      modifies this, state
      ensures state.connected && state.ready == old(state.ready) && state.lastSeenAt == Some(now)
      ensures state.current == old(state.current) && state.queue == old(state.queue)
      ensures state.donations == old(state.donations) && state.donationIds == old(state.donationIds)
      ensures state.topDonation == old(state.topDonation)
      ensures state.lastError == old(state.lastError) && state.lastWebhookAt == old(state.lastWebhookAt)
      ensures emitted == old(emitted) + [StateUpdate]
    {
      state.SetPlayerStatus(Bool(true), Undefined, now);
      emitted := emitted + [StateUpdate];
    }

    /** `onPlayerDisconnected()` at time `now`. */
    method OnPlayerDisconnected(now: int)
      modifies this, state
      ensures !state.connected && !state.ready && state.lastSeenAt == Some(now)
      ensures state.current == old(state.current) && state.queue == old(state.queue)
      ensures state.donations == old(state.donations) && state.donationIds == old(state.donationIds)
      ensures state.topDonation == old(state.topDonation)
      ensures state.lastError == old(state.lastError) && state.lastWebhookAt == old(state.lastWebhookAt)
      ensures emitted == old(emitted) + [StateUpdate]
    {
      state.SetPlayerStatus(Bool(false), Bool(false), now);
      emitted := emitted + [StateUpdate];
    }

    /**
     * `playNext()`: the head of the queue becomes current, or nothing plays
     * when the queue is empty. The interrupted track is not kept.
     */
    method PlayNext()
      modifies this, state
      ensures Pending(state.current, state.queue) == old(state.queue)
      ensures old(state.queue) != [] ==> state.current == Some(old(state.queue)[0]) && state.queue == old(state.queue)[1..]
      ensures old(state.queue) == [] ==> state.current == None && state.queue == []
      ensures emitted == old(emitted) + [if state.current.Some? then MusicPlay(state.current.value) else MusicStop, StateUpdate]
      ensures state.donations == old(state.donations) && state.donationIds == old(state.donationIds)
      ensures state.topDonation == old(state.topDonation)
      ensures state.lastError == old(state.lastError) && state.lastWebhookAt == old(state.lastWebhookAt)
      ensures state.connected == old(state.connected) && state.ready == old(state.ready)
      ensures state.lastSeenAt == old(state.lastSeenAt)
    {
      var next: Option<Track> := None;
      if state.queue != [] {
        next := Some(state.queue[0]);
        state.SetMusicQueue(state.queue[1..]);
      }
      state.SetMusicCurrent(next);
      if next.Some? {
        emitted := emitted + [MusicPlay(next.value)];
      } else {
        emitted := emitted + [MusicStop];
      }
      emitted := emitted + [StateUpdate];
    }

    /** `onPlayerReady()` at time `now`: re-send the current track, or start the queue. */
    method OnPlayerReady(now: int)
      modifies this, state
      ensures state.ready && state.connected == old(state.connected) && state.lastSeenAt == Some(now)
      ensures old(state.current).Some? ==>
        && state.current == old(state.current) && state.queue == old(state.queue)
        && emitted == old(emitted) + [StateUpdate, MusicPlay(old(state.current).value)]
      ensures old(state.current).None? && old(state.queue) == [] ==>
        state.current == None && state.queue == [] && emitted == old(emitted) + [StateUpdate]
      ensures old(state.current).None? && old(state.queue) != [] ==>
        && state.current == Some(old(state.queue)[0]) && state.queue == old(state.queue)[1..]
        && emitted == old(emitted) + [StateUpdate, MusicPlay(old(state.queue)[0]), StateUpdate]
      ensures Pending(state.current, state.queue) == Pending(old(state.current), old(state.queue))
      ensures state.donations == old(state.donations) && state.donationIds == old(state.donationIds)
      ensures state.topDonation == old(state.topDonation)
      ensures state.lastError == old(state.lastError) && state.lastWebhookAt == old(state.lastWebhookAt)
    {
      state.SetPlayerStatus(Undefined, Bool(true), now);
      emitted := emitted + [StateUpdate];
      if state.current.Some? {
        emitted := emitted + [MusicPlay(state.current.value)];
        return;
      }
      if |state.queue| > 0 {
        PlayNext();
      }
    }

    /**
     * `playNow(track)`: the track plays at once. With `resume` an interrupted
     * track goes back to the front of the queue; otherwise it is dropped.
     */
    method PlayNow(track: Option<Track>)
      modifies this, state
      ensures track.None? ==> state.current == old(state.current) && state.queue == old(state.queue) && emitted == old(emitted)
      ensures track.Some? ==> state.current == track
      ensures track.Some? && Resumes() ==> Pending(state.current, state.queue) == [track.value] + Pending(old(state.current), old(state.queue))
      ensures track.Some? && !Resumes() ==> state.queue == old(state.queue)
      ensures track.Some? ==> emitted == old(emitted) + [MusicPlay(track.value), StateUpdate]
      ensures state.donations == old(state.donations) && state.donationIds == old(state.donationIds)
      ensures state.topDonation == old(state.topDonation)
      ensures state.lastError == old(state.lastError) && state.lastWebhookAt == old(state.lastWebhookAt)
      ensures state.connected == old(state.connected) && state.ready == old(state.ready)
      ensures state.lastSeenAt == old(state.lastSeenAt)
    {
      if track.None? {
        return;
      }
      var current := state.current;
      if current.Some? && Resumes() {
        state.SetMusicQueue([current.value] + state.queue);
      }
      state.SetMusicCurrent(track);
      emitted := emitted + [MusicPlay(track.value), StateUpdate];
    }

    /**
     * `enqueue(track)`: the track joins the back of the queue, and a ready
     * player that plays nothing starts on the queue's head.
     */
    method Enqueue(track: Option<Track>)
      modifies this, state
      ensures track.None? ==> state.current == old(state.current) && state.queue == old(state.queue) && emitted == old(emitted)
      ensures track.Some? ==> Pending(state.current, state.queue) == Pending(old(state.current), old(state.queue)) + [track.value]
      ensures track.Some? && (old(state.current).Some? || !old(state.ready)) ==>
        && state.current == old(state.current) && state.queue == old(state.queue) + [track.value]
        && emitted == old(emitted) + [StateUpdate]
      ensures track.Some? && old(state.current).None? && old(state.ready) ==>
        && state.current == Some((old(state.queue) + [track.value])[0])
        && state.queue == (old(state.queue) + [track.value])[1..]
        && emitted == old(emitted) + [StateUpdate, MusicPlay((old(state.queue) + [track.value])[0]), StateUpdate]
      ensures state.donations == old(state.donations) && state.donationIds == old(state.donationIds)
      ensures state.topDonation == old(state.topDonation)
      ensures state.lastError == old(state.lastError) && state.lastWebhookAt == old(state.lastWebhookAt)
      ensures state.connected == old(state.connected) && state.ready == old(state.ready)
      ensures state.lastSeenAt == old(state.lastSeenAt)
    {
      if track.None? {
        return;
      }
      state.SetMusicQueue(state.queue + [track.value]);
      emitted := emitted + [StateUpdate];
      if state.current.None? && state.ready {
        PlayNext();
      }
    }

    /** `skip()`: the current track ends and the next one starts. */
    method Skip()
      modifies this, state
      ensures Pending(state.current, state.queue) == old(state.queue)
      ensures old(state.queue) != [] ==> state.current == Some(old(state.queue)[0])
      ensures old(state.queue) == [] ==> state.current == None
      ensures emitted == old(emitted) + [if old(state.queue) != [] then MusicPlay(old(state.queue)[0]) else MusicStop, StateUpdate]
      ensures state.donations == old(state.donations) && state.donationIds == old(state.donationIds)
      ensures state.topDonation == old(state.topDonation)
      ensures state.lastError == old(state.lastError) && state.lastWebhookAt == old(state.lastWebhookAt)
      ensures state.connected == old(state.connected) && state.ready == old(state.ready)
      ensures state.lastSeenAt == old(state.lastSeenAt)
    {
      PlayNext();
    }

    /** `clearQueue()`: the queue empties and the current track plays on. */
    method ClearQueue()
      modifies this, state
      ensures state.queue == [] && state.current == old(state.current)
      ensures emitted == old(emitted) + [StateUpdate]
      ensures state.donations == old(state.donations) && state.donationIds == old(state.donationIds)
      ensures state.topDonation == old(state.topDonation)
      ensures state.lastError == old(state.lastError) && state.lastWebhookAt == old(state.lastWebhookAt)
      ensures state.connected == old(state.connected) && state.ready == old(state.ready)
      ensures state.lastSeenAt == old(state.lastSeenAt)
    {
      state.SetMusicQueue([]);
      emitted := emitted + [StateUpdate];
    }
  }

}
