/** The records that flow between the webhook handler, the rule engine, the state and the player. */
module Records {
  import opened Opt
  import opened Js

  /** A donation as the webhook handler builds it (`id`, `at`, `value`, `message`, `sender`, `status`). */
  datatype Donation = Donation(id: string, at: int, value: real, message: string, sender: string, status: string)

  /** `{type, ruleId, priority}`: the summary of one decided action kept with a donation. */
  datatype ActionRef = ActionRef(actionType: Value, ruleId: Value, priority: Value)

  /** An entry of the recent-donations list. */
  datatype DonationEntry = DonationEntry(
    id: string, at: int, value: real, sender: string, message: string, status: string,
    url: Option<string>, actions: seq<ActionRef>)

  /** The snapshot kept of the largest donation so far. */
  datatype TopDonation = TopDonation(id: string, at: int, value: real, sender: string, message: string)

  /** A track of the music player. */
  datatype Track = Track(
    id: string, at: int, url: string, videoId: string, vip: bool,
    requestedBy: string, value: real, message: string)
}
