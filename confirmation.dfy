/** The reaction wait of the duel and duo submissions. After posting a
    proposal the bot waits for the first added reaction that the submission's
    check accepts; the model reads the reactions added before the timeout as a
    sequence, and its end as the timeout. */
module Confirmation {
  import opened Common

  datatype Emoji = Tick | Cross | OtherEmoji

  /** A reaction_add event: the message reacted to, who reacted, and with what. */
  datatype Reaction = Reaction(messageId: nat, user: PlayerId, emoji: Emoji)

  /** The proposal is waiting, was resolved by one accepted reaction, or expired. */
  datatype Status = Proposed | Resolved(reaction: Reaction) | TimedOut

  /** One reaction arrives. Only a waiting proposal reacts to it, and only
      when the check accepts it. */
  function Step(accept: Reaction -> bool, s: Status, r: Reaction): Status
  {
    if s.Proposed? && accept(r) then Resolved(r) else s
  }

  /** The reactions delivered one after another. */
  function Run(accept: Reaction -> bool, s: Status, rs: seq<Reaction>): Status
    decreases |rs|
  {
    if rs == [] then s else Run(accept, Step(accept, s, rs[0]), rs[1..])
  }

  /** wait_for('reaction_add', check = accept): a proposal still waiting when
      the reactions run out has timed out. */
  function WaitFor(accept: Reaction -> bool, rs: seq<Reaction>): (s: Status)
    ensures !s.Proposed?
  {
    var s := Run(accept, Proposed, rs);
    if s.Proposed? then TimedOut else s
  }

  /** The position of the first reaction the check accepts. */
  function FirstAccepted(accept: Reaction -> bool, rs: seq<Reaction>): (o: Option<nat>)
    ensures o.Some? ==> o.value < |rs| && accept(rs[o.value])
    ensures o.Some? ==> forall j :: 0 <= j < o.value ==> !accept(rs[j])
    ensures o.None? ==> forall j :: 0 <= j < |rs| ==> !accept(rs[j])
    decreases |rs|
  {
    if rs == [] then None
    else if accept(rs[0]) then Some(0)
    else
      var rest := FirstAccepted(accept, rs[1..]);
      if rest.Some? then Some(rest.value + 1) else None
  }

  /** Once resolved or expired, a proposal ignores every later reaction. */
  lemma {:induction false} RunFromSettled(accept: Reaction -> bool, s: Status, rs: seq<Reaction>)
    requires !s.Proposed?
    ensures Run(accept, s, rs) == s
    decreases |rs|
  {
    if rs != [] {
      RunFromSettled(accept, Step(accept, s, rs[0]), rs[1..]);
    }
  }

  /** A waiting proposal is settled by the first accepted reaction, and stays
      waiting when none is accepted. */
  lemma {:induction false} RunFromProposed(accept: Reaction -> bool, rs: seq<Reaction>)
    ensures var o := FirstAccepted(accept, rs);
      Run(accept, Proposed, rs) == if o.Some? then Resolved(rs[o.value]) else Proposed
    decreases |rs|
  {
    if rs != [] {
      if accept(rs[0]) {
        RunFromSettled(accept, Resolved(rs[0]), rs[1..]);
      } else {
        RunFromProposed(accept, rs[1..]);
      }
    }
  }

  /** The wait ends with the first accepted reaction, or with the timeout when
      the check accepts none of them. */
  lemma WaitForFirstAccepted(accept: Reaction -> bool, rs: seq<Reaction>)
    ensures var o := FirstAccepted(accept, rs);
      WaitFor(accept, rs) == if o.Some? then Resolved(rs[o.value]) else TimedOut
  {
    RunFromProposed(accept, rs);
  }

  /** Whatever resolves the wait is a reaction the check accepted, and it
      arrived before the timeout. */
  lemma ResolvedByAccepted(accept: Reaction -> bool, rs: seq<Reaction>)
    ensures WaitFor(accept, rs).Resolved? ==>
      WaitFor(accept, rs).reaction in rs && accept(WaitFor(accept, rs).reaction)
    ensures WaitFor(accept, rs).TimedOut? <==> forall j :: 0 <= j < |rs| ==> !accept(rs[j])
  {
    WaitForFirstAccepted(accept, rs);
  }
}
