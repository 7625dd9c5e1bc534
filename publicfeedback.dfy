/**
 * The public-feedback page's own state: the create-poll form (question and
 * option inputs), the latest poll's details once fetched, and the poll and
 * option picked for a vote. Contract reads arrive as parameters and contract
 * writes are reduced to their outcome (confirmed or rejected), also a
 * parameter; each handler returns the call it submitted, if it submitted one.
 */
module PublicFeedback {
  import opened Js

  /** The `getPollDetails` result shown in the poll card: question and options. */
  datatype PollDetails = PollDetails(question: string, options: seq<string>)

  /** How an awaited contract write ended: it resolved, or it threw. */
  datatype WriteOutcome = Confirmed | Rejected

  /** `createPoll` with its arguments `[question, options]`. */
  datatype CreatePollCall = CreatePollCall(question: string, options: seq<string>)

  /** `vote` with its arguments `[pollId, selectedOption]`. */
  datatype VoteCall = VoteCall(pollId: int, optionIndex: nat)

  /**
   * `Number(pollCount ?? 0) - 1`: the id of the newest poll, taken to be the
   * last one created; -1 while the count is unknown or no poll exists.
   */
  function LatestPollId(pollCount: Option<nat>): (id: int)
    ensures id >= -1
    ensures id >= 0 <==> pollCount.Some? && pollCount.value > 0
    ensures id >= 0 ==> id + 1 == pollCount.value
  {
    pollCount.GetOr(0) - 1
  }

  class Page {
    var polls: seq<PollDetails>
    var question: string
    var options: seq<string>
    var selectedPoll: Option<nat>
    var selectedOption: Option<nat>

    /**
     * What every handler keeps: the form always offers at least two option
     * inputs, at most one poll card is shown, a poll and an option are
     * picked together, and a picked poll is a card on show.
     */
    ghost predicate Valid()
      reads this
    {
      && |options| >= 2
      && |polls| <= 1
      && (selectedPoll.Some? <==> selectedOption.Some?)
      && (selectedPoll.Some? ==> selectedPoll.value < |polls|)
    }

    /** The page's initial state. */
    constructor ()
      ensures Valid()
      ensures polls == [] && question == "" && options == ["", ""]
      ensures selectedPoll == None && selectedOption == None
    {
      polls := [];
      question := "";
      options := ["", ""];
      selectedPoll := None;
      selectedOption := None;
    }

    /** Typing into the question input. */
    method SetQuestion(text: string)
      requires Valid()
      modifies this`question
      ensures Valid()
      ensures question == text
    {
      question := text;
    }

    /** Typing into option input `index`: that entry changes, nothing else. */
    method EditOption(index: nat, text: string)
      requires Valid()
      requires index < |options|
      modifies this`options
      ensures Valid()
      ensures |options| == |old(options)|
      ensures options[index] == text
      ensures forall j :: 0 <= j < |options| && j != index ==> options[j] == old(options)[j]
    {
      options := options[index := text];
    }

    /** "Add Option": one more, empty, input at the end. */
    method AddOption()
      requires Valid()
      modifies this`options
      ensures Valid()
      ensures options == old(options) + [""]
    {
      options := options + [""];
    }

    /**
     * `fetchPollDetails`: with a latest poll id and its details at hand, the
     * cards show exactly that poll; otherwise they stay as they were.
     */
    method FetchPollDetails(pollCount: Option<nat>, details: Option<PollDetails>)
      requires Valid()
      modifies this`polls
      ensures Valid()
      ensures LatestPollId(pollCount) >= 0 && details.Some? ==> polls == [details.value]
      ensures LatestPollId(pollCount) < 0 || details.None? ==> polls == old(polls)
    {
      if LatestPollId(pollCount) >= 0 && details.Some? {
        polls := [details.value];
      }
    }

    /** Picking radio button `optionIndex` on poll card `pollIndex`. */
    method SelectOption(pollIndex: nat, optionIndex: nat)
      requires Valid()
      requires pollIndex < |polls|
      modifies this`selectedPoll, this`selectedOption
      ensures Valid()
      ensures selectedPoll == Some(pollIndex) && selectedOption == Some(optionIndex)
    {
      selectedPoll := Some(pollIndex);
      selectedOption := Some(optionIndex);
    }

    /**
     * `handleCreatePoll`: submits the question and options only when the
     * question is non-empty and there are at least two options (always so,
     * by Valid). A confirmed write resets the form; a rejected one, or no
     * submission at all, leaves it as it was.
     */
    method CreatePoll(outcome: WriteOutcome) returns (call: Option<CreatePollCall>)
      requires Valid()
      modifies this`question, this`options
      ensures Valid()
      ensures call.Some? <==> old(question) != "" && |old(options)| > 1
      ensures call.Some? <==> old(question) != ""
      ensures call.Some? ==> call.value == CreatePollCall(old(question), old(options))
      ensures call.Some? && outcome == Confirmed ==> question == "" && options == ["", ""]
      ensures call.None? || outcome == Rejected ==> question == old(question) && options == old(options)
    {
      call := None;
      if question != "" && |options| > 1 {
        call := Some(CreatePollCall(question, options));
        if outcome == Confirmed {
          question := "";
          options := ["", ""];
        }
      }
    }

    /**
     * `handleVote`: submits only when a poll and an option are picked (by
     * Valid, the first implies the second). The call names the latest poll
     * id, whichever card was picked, and the picked option. A confirmed
     * write clears both picks; a rejected one, or no submission, keeps them.
     */
    method Vote(pollCount: Option<nat>, outcome: WriteOutcome) returns (call: Option<VoteCall>)
      requires Valid()
      modifies this`selectedPoll, this`selectedOption
      ensures Valid()
      ensures call.Some? <==> old(selectedPoll).Some? && old(selectedOption).Some?
      ensures call.Some? <==> old(selectedPoll).Some?
      ensures call.Some? ==> call.value == VoteCall(LatestPollId(pollCount), old(selectedOption).value)
      ensures call.Some? && outcome == Confirmed ==> selectedPoll == None && selectedOption == None
      ensures call.None? || outcome == Rejected
              ==> selectedPoll == old(selectedPoll) && selectedOption == old(selectedOption)
    {
      call := None;
      if selectedPoll.Some? && selectedOption.Some? {
        call := Some(VoteCall(LatestPollId(pollCount), selectedOption.value));
        if outcome == Confirmed {
          selectedPoll := None;
          selectedOption := None;
        }
      }
    }
  }

  /**
   * A session the handlers allow: create a poll, fetch it, pick option 1,
   * vote. The vote goes to the poll just fetched and the form is reset.
   */
  method Session(q: string, details: PollDetails)
    requires q != ""
  {
    var page := new Page();
    page.SetQuestion(q);
    page.EditOption(0, "yes");
    page.EditOption(1, "no");
    page.AddOption();
    assert page.options == ["yes", "no", ""];
    var created := page.CreatePoll(Confirmed);
    assert created == Some(CreatePollCall(q, ["yes", "no", ""]));
    assert page.question == "" && page.options == ["", ""];
    page.FetchPollDetails(Some(1), Some(details));
    page.SelectOption(0, 1);
    var voted := page.Vote(Some(1), Rejected);
    assert voted == Some(VoteCall(0, 1)) && page.selectedOption == Some(1);
    voted := page.Vote(Some(1), Confirmed);
    assert voted == Some(VoteCall(0, 1)) && page.selectedPoll == None;
    voted := page.Vote(Some(1), Confirmed);
    assert voted == None;
  }
}
