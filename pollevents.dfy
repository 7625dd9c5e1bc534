/**
 * The event-to-view projector of the polling UI: the `PollEvents` component.
 * It takes the decoded PollCreated and VoteCasted event histories, folds the
 * PollCreated events into an index from poll id (decimal text) to option
 * list, resolves each vote's option index to a label through that index, and
 * renders both histories as rows of display cells. The page embeds a copy of
 * this component whose code is the same line for line, so one model serves
 * both.
 */
module PollEvents {
  import opened Js

  /** The `args` record of a decoded event; any field may be undefined. */
  datatype EventArgs = EventArgs(
    pollId: Option<nat>,
    question: Option<string>,
    options: Option<seq<string>>,   // None: undefined, or not an array
    optionIndex: Option<nat>)

  /** Where the log sits on chain; both parts are null for a pending log. */
  datatype LogPosition = LogPosition(blockNumber: Option<nat>, logIndex: Option<nat>)

  /** One entry of an event history: its arguments, the receipt's sender and its log. */
  datatype ScaffoldEvent = ScaffoldEvent(
    args: Option<EventArgs>,
    from: Option<string>,
    log: Option<LogPosition>)

  /** What an event-history hook hands back: the events, a loading flag and an error message. */
  datatype EventHistory = EventHistory(
    data: Option<seq<ScaffoldEvent>>,
    isLoading: bool,
    error: Option<string>)

  /** Poll id (decimal text) to the poll's option list. */
  type OptionsIndex = map<string, seq<string>>

  /** `event.args || {}` */
  function GetArgs(e: ScaffoldEvent): EventArgs {
    match e.args
    case Some(a) => a
    case None => EventArgs(None, None, None, None)
  }

  // ---------------------------------------------------------------------
  // The options index
  // ---------------------------------------------------------------------

  /** An event the fold records: it has args, a defined pollId and an options array. */
  predicate WellFormed(e: ScaffoldEvent) {
    e.args.Some? && e.args.value.pollId.Some? && e.args.value.options.Some?
  }

  function PollKey(e: ScaffoldEvent): string
    requires WellFormed(e)
  {
    NatToString(e.args.value.pollId.value)
  }

  function OptionsOf(e: ScaffoldEvent): seq<string>
    requires WellFormed(e)
  {
    e.args.value.options.value
  }

  /** The fold records `e` under `key`. */
  predicate Writes(e: ScaffoldEvent, key: string) {
    WellFormed(e) && PollKey(e) == key
  }

  /** The index after the fold has visited every event of `events` in order. */
  function IndexOf(events: seq<ScaffoldEvent>): OptionsIndex
    decreases |events|
  {
    if events == [] then map[]
    else
      var prior := IndexOf(events[..|events| - 1]);
      var e := events[|events| - 1];
      if WellFormed(e) then prior[PollKey(e) := OptionsOf(e)] else prior
  }

  /** `pollCreatedEvents?.forEach(...)`: an absent history leaves the index empty. */
  function PollOptions(events: Option<seq<ScaffoldEvent>>): OptionsIndex {
    match events
    case None => map[]
    case Some(es) => IndexOf(es)
  }

  /** The loop that fills the dictionary in place, event by event. */
  method BuildPollOptions(events: Option<seq<ScaffoldEvent>>) returns (options: OptionsIndex)
    ensures options == PollOptions(events)
  {
    options := map[];
    if events.Some? {
      var es := events.value;
      var i := 0;
      while i < |es|
        invariant 0 <= i <= |es|
        invariant options == IndexOf(es[..i])
      {
        var e := es[i];
        assert es[..i + 1][..i] == es[..i];
        if e.args.Some? && e.args.value.pollId.Some? && e.args.value.options.Some? {
          options := options[NatToString(e.args.value.pollId.value) := e.args.value.options.value];
        }
        i := i + 1;
      }
      assert es[..|es|] == es;
    }
  }

  /**
   * Reference definition of last-write-wins: the position of the last event
   * that the fold records under `key`, if there is one.
   */
  function LastWriter(events: seq<ScaffoldEvent>, key: string): (w: Option<nat>)
    ensures w.Some? ==> w.value < |events| && Writes(events[w.value], key)
    ensures w.Some? ==> forall j :: w.value < j < |events| ==> !Writes(events[j], key)
    ensures w.None? ==> forall j :: 0 <= j < |events| ==> !Writes(events[j], key)
    decreases |events|
  {
    if events == [] then None
    else if Writes(events[|events| - 1], key) then Some(|events| - 1)
    else
      var w := LastWriter(events[..|events| - 1], key);
      assert forall j :: 0 <= j < |events| - 1 ==> events[..|events| - 1][j] == events[j];
      w
  }

  /**
   * A key is in the index exactly when some event writes it, and it then
   * holds the options of the last such event: later events overwrite
   * earlier ones and nothing is merged.
   */
  lemma {:induction false} IndexIsLastWrite(events: seq<ScaffoldEvent>, key: string)
    ensures key in IndexOf(events) <==> LastWriter(events, key).Some?
    ensures LastWriter(events, key).Some? ==>
              IndexOf(events)[key] == OptionsOf(events[LastWriter(events, key).value])
    decreases |events|
  {
    if events != [] {
      var prefix := events[..|events| - 1];
      IndexIsLastWrite(prefix, key);
      if !Writes(events[|events| - 1], key) {
        var w := LastWriter(prefix, key);
        if w.Some? {
          assert prefix[w.value] == events[w.value];
        }
      }
    }
  }

  /** The index's keys are exactly the keys of the well-formed events. */
  lemma {:induction false} IndexKeys(events: seq<ScaffoldEvent>, key: string)
    ensures key in IndexOf(events) <==> exists i :: 0 <= i < |events| && Writes(events[i], key)
  {
    IndexIsLastWrite(events, key);
  }

  /** Every key of the index is the decimal text of a poll id. */
  lemma {:induction false} IndexKeysAreDecimal(events: seq<ScaffoldEvent>, key: string)
    requires key in IndexOf(events)
    ensures key != "" && AllDigits(key)
  {
    IndexIsLastWrite(events, key);
  }

  /** Keys are the text form of the poll id, so recording under `NatToString(p)` means poll id `p`. */
  lemma WritesById(e: ScaffoldEvent, p: nat)
    ensures Writes(e, NatToString(p)) <==> WellFormed(e) && e.args.value.pollId.value == p
  {
    if WellFormed(e) {
      NatToStringInjective(e.args.value.pollId.value, p);
    }
  }

  /**
   * The well-formed events of `events`, in order: it keeps exactly the
   * well-formed ones, and a history with nothing malformed comes back whole.
   */
  function WellFormedOnly(events: seq<ScaffoldEvent>): (r: seq<ScaffoldEvent>)
    ensures |r| <= |events|
    ensures forall i :: 0 <= i < |r| ==> WellFormed(r[i])
    ensures forall e :: e in r <==> e in events && WellFormed(e)
    ensures (forall i :: 0 <= i < |events| ==> WellFormed(events[i])) ==> r == events
    decreases |events|
  {
    if events == [] then []
    else
      var prefix := events[..|events| - 1];
      var e := events[|events| - 1];
      assert events == prefix + [e];
      WellFormedOnly(prefix) + (if WellFormed(e) then [e] else [])
  }

  /** Malformed events leave no trace: dropping them all gives the same index. */
  lemma {:induction false} IndexIgnoresMalformed(events: seq<ScaffoldEvent>)
    ensures IndexOf(WellFormedOnly(events)) == IndexOf(events)
    decreases |events|
  {
    if events != [] {
      var prefix := events[..|events| - 1];
      var e := events[|events| - 1];
      IndexIgnoresMalformed(prefix);
      if WellFormed(e) {
        var kept := WellFormedOnly(prefix) + [e];
        assert WellFormedOnly(events) == kept;
        assert kept[..|kept| - 1] == WellFormedOnly(prefix);
        assert kept[|kept| - 1] == e;
        assert IndexOf(kept) == IndexOf(WellFormedOnly(prefix))[PollKey(e) := OptionsOf(e)];
      } else {
        assert WellFormedOnly(events) == WellFormedOnly(prefix) + [] == WellFormedOnly(prefix);
        assert IndexOf(events) == IndexOf(prefix);
      }
    }
  }

  // ---------------------------------------------------------------------
  // Resolving a vote's option label
  // ---------------------------------------------------------------------

  const Unknown: string := "Unknown"

  /**
   * The property name the vote row looks up: `args.pollId?.toString()`,
   * which JavaScript turns into the name "undefined" when pollId is missing.
   */
  function LookupKey(args: EventArgs): string {
    match args.pollId
    case Some(p) => NatToString(p)
    case None => "undefined"
  }

  /** `pollOptions[pollId] || []` followed by the bounds-checked lookup. */
  function SelectedOption(index: OptionsIndex, args: EventArgs): string {
    var options := if LookupKey(args) in index then index[LookupKey(args)] else [];
    if args.optionIndex.Some? && args.optionIndex.value < |options|
    then options[args.optionIndex.value]
    else Unknown
  }

  /**
   * Reference definition of a vote's label straight from the PollCreated
   * history: the chosen entry of the options of the last well-formed event
   * with the vote's poll id, or "Unknown" when the vote has no poll id or
   * no option index, no such event exists, or the index is out of range.
   */
  function ResolvedLabel(events: seq<ScaffoldEvent>, args: EventArgs): string {
    if args.pollId.None? || args.optionIndex.None? then Unknown
    else
      var w := LastWriter(events, NatToString(args.pollId.value));
      if w.None? then Unknown
      else
        var options := OptionsOf(events[w.value]);
        if args.optionIndex.value < |options| then options[args.optionIndex.value] else Unknown
  }

  /** The label the vote table shows is the reference label. */
  lemma {:induction false} SelectedOptionIsResolved(events: seq<ScaffoldEvent>, args: EventArgs)
    ensures SelectedOption(IndexOf(events), args) == ResolvedLabel(events, args)
  {
    if args.pollId.Some? {
      IndexIsLastWrite(events, NatToString(args.pollId.value));
    } else {
      UndefinedIsNotDecimal();
      if "undefined" in IndexOf(events) {
        IndexKeysAreDecimal(events, "undefined");
      }
    }
  }

  lemma UndefinedIsNotDecimal()
    ensures !AllDigits("undefined")
  {
    assert !IsDigit("undefined"[0]);
  }

  /** In-range lookups give the indexed option; everything else gives "Unknown". */
  lemma SelectedOptionCases(index: OptionsIndex, args: EventArgs)
    ensures args.pollId.Some? && args.optionIndex.Some? && LookupKey(args) in index
            && args.optionIndex.value < |index[LookupKey(args)]|
            ==> SelectedOption(index, args) == index[LookupKey(args)][args.optionIndex.value]
    ensures args.optionIndex.None? ==> SelectedOption(index, args) == Unknown
    ensures LookupKey(args) !in index ==> SelectedOption(index, args) == Unknown
  {
  }

  // ---------------------------------------------------------------------
  // Display cells and row keys
  // ---------------------------------------------------------------------

  const NotAvailable: string := "N/A"
  const UnknownPart: string := "unknown"

  /** `args.pollId?.toString() || "N/A"` */
  function PollIdCell(args: EventArgs): (c: string)
    ensures c == NotAvailable <==> args.pollId.None?
    ensures args.pollId.Some? ==> c == NatToString(args.pollId.value)
  {
    match args.pollId
    case None => NotAvailable
    case Some(p) =>
      var s := NatToString(p);
      assert s != NotAvailable by { assert !IsDigit(NotAvailable[0]); }
      OrElse(Some(s), NotAvailable)
  }

  function JoinedOptions(args: EventArgs): Option<string> {
    match args.options
    case None => None
    case Some(xs) => Some(Join(xs, ", "))
  }

  /** `args.options?.join(", ") || "N/A"` */
  function OptionsCell(args: EventArgs): string {
    OrElse(JoinedOptions(args), NotAvailable)
  }

  /**
   * The options cell is the options joined with ", ", and "N/A" when there
   * are no options or the join is empty, which happens for `[]` and `[""]`
   * and for no other list.
   */
  lemma {:induction false} OptionsCellCases(args: EventArgs)
    ensures args.options.None? ==> OptionsCell(args) == NotAvailable
    ensures args.options.Some? && (args.options.value == [] || args.options.value == [""])
            ==> OptionsCell(args) == NotAvailable
    ensures args.options.Some? && args.options.value != [] && args.options.value != [""]
            ==> OptionsCell(args) == Join(args.options.value, ", ") != ""
  {
    if args.options.Some? {
      JoinEmptyIff(args.options.value, ", ");
    }
  }

  /** `args.question || "N/A"` */
  function QuestionCell(args: EventArgs): string {
    OrElse(args.question, NotAvailable)
  }

  /** `event.receiptData?.from || "N/A"` */
  function AddressCell(e: ScaffoldEvent): string {
    OrElse(e.from, NotAvailable)
  }

  /** A number in a template literal behind `|| "unknown"`: 0 counts as missing. */
  predicate Truthy(x: Option<nat>) {
    x.Some? && x.value != 0
  }

  function KeyPart(x: Option<nat>): string {
    if Truthy(x) then NatToString(x.value) else UnknownPart
  }

  function BlockNumber(e: ScaffoldEvent): Option<nat> {
    if e.log.Some? then e.log.value.blockNumber else None
  }

  function LogIndex(e: ScaffoldEvent): Option<nat> {
    if e.log.Some? then e.log.value.logIndex else None
  }

  /** `getEventKey`: `<blockNumber>-<logIndex>`, each falsy part as "unknown". */
  function RowKey(e: ScaffoldEvent): string {
    KeyPart(BlockNumber(e)) + "-" + KeyPart(LogIndex(e))
  }

  /** Two key parts agree when both are falsy or both are the same non-zero number. */
  predicate SamePart(x: Option<nat>, y: Option<nat>) {
    Truthy(x) == Truthy(y) && (Truthy(x) ==> x.value == y.value)
  }

  lemma KeyPartEqualIff(x: Option<nat>, y: Option<nat>)
    ensures KeyPart(x) == KeyPart(y) <==> SamePart(x, y)
  {
    if Truthy(x) && Truthy(y) {
      NatToStringInjective(x.value, y.value);
    } else if Truthy(x) != Truthy(y) {
      var s := if Truthy(x) then KeyPart(x) else KeyPart(y);
      assert s[0] != UnknownPart[0];
    }
  }

  lemma KeyPartHasNoDash(x: Option<nat>)
    ensures forall i :: 0 <= i < |KeyPart(x)| ==> KeyPart(x)[i] != '-'
  {
  }

  /** In `a + "-" + b` with no '-' in `a`, the first '-' sits at position `|a|`. */
  lemma FirstDash(a: string, b: string)
    requires forall i :: 0 <= i < |a| ==> a[i] != '-'
    ensures forall i :: 0 <= i < |a| ==> (a + "-" + b)[i] != '-'
    ensures (a + "-" + b)[|a|] == '-'
  {
  }

  /** Text split at its first '-' determines both sides. */
  lemma SplitAtDash(a1: string, b1: string, a2: string, b2: string)
    requires forall i :: 0 <= i < |a1| ==> a1[i] != '-'
    requires forall i :: 0 <= i < |a2| ==> a2[i] != '-'
    requires a1 + "-" + b1 == a2 + "-" + b2
    ensures a1 == a2 && b1 == b2
  {
    var s := a1 + "-" + b1;
    FirstDash(a1, b1);
    FirstDash(a2, b2);
    assert |a1| == |a2|;
    assert a1 == s[..|a1|] == a2;
    assert b1 == s[|a1| + 1..] == b2;
  }

  /**
   * Row keys tell events apart exactly as far as their truthy block numbers
   * and log indexes do: a 0, a null and a missing part all read "unknown".
   */
  lemma RowKeyEqualIff(e1: ScaffoldEvent, e2: ScaffoldEvent)
    ensures RowKey(e1) == RowKey(e2)
            <==> SamePart(BlockNumber(e1), BlockNumber(e2)) && SamePart(LogIndex(e1), LogIndex(e2))
  {
    KeyPartHasNoDash(BlockNumber(e1));
    KeyPartHasNoDash(BlockNumber(e2));
    KeyPartEqualIff(BlockNumber(e1), BlockNumber(e2));
    KeyPartEqualIff(LogIndex(e1), LogIndex(e2));
    if RowKey(e1) == RowKey(e2) {
      SplitAtDash(KeyPart(BlockNumber(e1)), KeyPart(LogIndex(e1)),
                  KeyPart(BlockNumber(e2)), KeyPart(LogIndex(e2)));
    }
  }

  /** The first log of a block (logIndex 0) gets the same key as a log with no index. */
  lemma FalsyZeroLogIndex(b: nat)
    ensures RowKey(ScaffoldEvent(None, None, Some(LogPosition(Some(b), Some(0)))))
         == RowKey(ScaffoldEvent(None, None, Some(LogPosition(Some(b), None))))
  {
  }

  // ---------------------------------------------------------------------
  // Rows and the rendered view
  // ---------------------------------------------------------------------

  datatype PollRow = PollRow(key: string, pollId: string, creator: string, question: string, options: string)
  datatype VoteRow = VoteRow(key: string, pollId: string, voter: string, selectedOption: string)

  function PollRowOf(e: ScaffoldEvent): PollRow {
    var args := GetArgs(e);
    PollRow(RowKey(e), PollIdCell(args), AddressCell(e), QuestionCell(args), OptionsCell(args))
  }

  function VoteRowOf(index: OptionsIndex, e: ScaffoldEvent): VoteRow {
    var args := GetArgs(e);
    VoteRow(RowKey(e), PollIdCell(args), AddressCell(e), SelectedOption(index, args))
  }

  /** `s || "N/A"` for an optional string, stated by cases. */
  predicate ShowsOrNA(cell: string, s: Option<string>) {
    && (s.None? || s.value == "" ==> cell == NotAvailable)
    && (s.Some? && s.value != "" ==> cell == s.value)
  }

  /** What a Polls Created row shows for its event, cell by cell. */
  predicate PollRowShows(row: PollRow, e: ScaffoldEvent) {
    var args := GetArgs(e);
    && row.key == RowKey(e)
    && (row.pollId == NotAvailable <==> args.pollId.None?)
    && (args.pollId.Some? ==> row.pollId == NatToString(args.pollId.value))
    && ShowsOrNA(row.creator, e.from)
    && ShowsOrNA(row.question, args.question)
    && (args.options.None? || args.options.value == [] || args.options.value == [""]
        ==> row.options == NotAvailable)
    && (args.options.Some? && args.options.value != [] && args.options.value != [""]
        ==> row.options == Join(args.options.value, ", ") != "")
  }

  /**
   * What a Votes Casted row shows for its vote: the indexed option when the
   * poll is indexed, the option index is defined and in range, and "Unknown"
   * in every other case.
   */
  predicate VoteRowShows(row: VoteRow, index: OptionsIndex, e: ScaffoldEvent) {
    var args := GetArgs(e);
    var key := LookupKey(args);
    && row.key == RowKey(e)
    && (row.pollId == NotAvailable <==> args.pollId.None?)
    && (args.pollId.Some? ==> row.pollId == NatToString(args.pollId.value))
    && ShowsOrNA(row.voter, e.from)
    && (key in index && args.optionIndex.Some? && args.optionIndex.value < |index[key]|
        ==> row.selectedOption == index[key][args.optionIndex.value])
    && (!(key in index && args.optionIndex.Some? && args.optionIndex.value < |index[key]|)
        ==> row.selectedOption == Unknown)
  }

  /** `pollCreatedEvents?.map(...)`: one row per event, in order, none for an absent history. */
  function PollRows(events: Option<seq<ScaffoldEvent>>): (rows: seq<PollRow>)
    ensures events.None? ==> rows == []
    ensures events.Some? ==> |rows| == |events.value|
    ensures events.Some? ==> forall i :: 0 <= i < |rows| ==> PollRowShows(rows[i], events.value[i])
  {
    match events
    case None => []
    case Some(es) =>
      var rows := seq(|es|, i requires 0 <= i < |es| => PollRowOf(es[i]));
      assert forall i :: 0 <= i < |es| ==> PollRowShows(rows[i], es[i]) by {
        forall i | 0 <= i < |es| {
          OptionsCellCases(GetArgs(es[i]));
        }
      }
      rows
  }

  /** `voteCastedEvents?.map(...)`: one row per vote, in order, none for an absent history. */
  function VoteRows(index: OptionsIndex, events: Option<seq<ScaffoldEvent>>): (rows: seq<VoteRow>)
    ensures events.None? ==> rows == []
    ensures events.Some? ==> |rows| == |events.value|
    ensures events.Some? ==> forall i :: 0 <= i < |rows| ==> VoteRowShows(rows[i], index, events.value[i])
  {
    match events
    case None => []
    case Some(es) => seq(|es|, i requires 0 <= i < |es| => VoteRowOf(index, es[i]))
  }

  datatype View =
    | Loading
    | PollCreatedError(message: string)
    | VoteCastedError(message: string)
    | Tables(polls: seq<PollRow>, votes: seq<VoteRow>)

  /** What the component shows for the two histories. */
  function Render(created: EventHistory, casted: EventHistory): (v: View)
    ensures v.Loading? <==> created.isLoading || casted.isLoading
    ensures v.PollCreatedError? <==> !v.Loading? && created.error.Some?
    ensures v.VoteCastedError? <==> !v.Loading? && created.error.None? && casted.error.Some?
    ensures v.Tables? <==> !created.isLoading && !casted.isLoading && created.error.None? && casted.error.None?
  {
    if created.isLoading || casted.isLoading then Loading
    else if created.error.Some? then PollCreatedError(created.error.value)
    else if casted.error.Some? then VoteCastedError(casted.error.value)
    else
      var index := PollOptions(created.data);
      Tables(PollRows(created.data), VoteRows(index, casted.data))
  }

  /**
   * Once the tables show, the i-th vote row's label is the reference label
   * of the i-th vote against the PollCreated history.
   */
  lemma RenderedLabel(created: EventHistory, casted: EventHistory, i: nat)
    requires Render(created, casted).Tables?
    requires casted.data.Some? && i < |casted.data.value|
    ensures i < |Render(created, casted).votes|
    ensures Render(created, casted).votes[i].selectedOption
         == ResolvedLabel(if created.data.Some? then created.data.value else [], GetArgs(casted.data.value[i]))
  {
    var es := if created.data.Some? then created.data.value else [];
    assert PollOptions(created.data) == IndexOf(es);
    SelectedOptionIsResolved(es, GetArgs(casted.data.value[i]));
  }

  /** The worked examples: "B" for option 1 of poll 1, "Unknown" out of range or for an unknown poll. */
  lemma LabelExamples()
    ensures var created := [ScaffoldEvent(Some(EventArgs(Some(1), None, Some(["A", "B"]), None)), None, None)];
            && SelectedOption(IndexOf(created), EventArgs(Some(1), None, None, Some(1))) == "B"
            && SelectedOption(IndexOf(created), EventArgs(Some(1), None, None, Some(5))) == Unknown
            && SelectedOption(IndexOf(created), EventArgs(Some(2), None, None, Some(0))) == Unknown
  {
    var created := [ScaffoldEvent(Some(EventArgs(Some(1), None, Some(["A", "B"]), None)), None, None)];
    assert created[..0] == [];
    assert NatToString(1) == "1";
    assert NatToString(2) == "2";
  }

  /** Two PollCreated events for one poll id: the second one's options are kept. */
  lemma DuplicatePollIdExample(first: seq<string>, second: seq<string>)
    ensures var created := [ScaffoldEvent(Some(EventArgs(Some(7), None, Some(first), None)), None, None),
                            ScaffoldEvent(Some(EventArgs(Some(7), None, Some(second), None)), None, None)];
            IndexOf(created) == map[NatToString(7) := second]
  {
    var created := [ScaffoldEvent(Some(EventArgs(Some(7), None, Some(first), None)), None, None),
                    ScaffoldEvent(Some(EventArgs(Some(7), None, Some(second), None)), None, None)];
    var one := created[..1];
    assert one[..0] == [];
    assert IndexOf(one) == map[NatToString(7) := first];
  }
}
