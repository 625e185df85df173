/** The resumable download of one symbol's options chain: for every
    expiration date in the brokerage's list, skip it when the output file
    already holds it, otherwise fetch all of its options and append them as
    one block, or leave it out when the fetch failed or found nothing. */
module Download {
  import opened Wrappers
  import opened Chain
  import Sorting

  // ---------------------------------------------------------------------
  // The brokerage, as given functions
  // ---------------------------------------------------------------------

  /** One listed option contract; a key that is missing, or a strike that does
      not parse as a number, is None (looking it up raises). */
  datatype Instrument = Instrument(id: Option<string>, strikePrice: Option<real>, optionType: Option<OptionType>)

  /** The first market-data entry for one option; a key it lacks is None. */
  datatype Quote = Quote(
    bidPrice: Option<string>,
    askPrice: Option<string>,
    markPrice: Option<string>,
    lastTradePrice: Option<string>,
    volume: Option<nat>,
    openInterest: Option<nat>,
    impliedVolatility: Option<string>,
    delta: Option<string>,
    gamma: Option<string>,
    theta: Option<string>,
    vega: Option<string>,
    rho: Option<string>,
    highPrice: Option<string>,
    lowPrice: Option<string>,
    previousClosePrice: Option<string>)

  /** The two lookups the download makes. None means the call raised; an empty
      sequence means it returned nothing (or something falsy). */
  datatype Broker = Broker(
    findOptions: (string, Date) -> Option<seq<Instrument>>,
    marketData: string -> Option<seq<Quote>>)

  // ---------------------------------------------------------------------
  // Assembling the records of one expiration
  // ---------------------------------------------------------------------

  /** The per-option work completes: the strike, type and id are present and
      the market-data call returned at least one entry. */
  predicate Kept(broker: Broker, option: Instrument) {
    && option.strikePrice.Some?
    && option.optionType.Some?
    && option.id.Some?
    && broker.marketData(option.id.value).Some?
    && |broker.marketData(option.id.value).value| > 0
  }

  /** Each market field of `rec` is the quote's, or its default when the quote
      lacks it: 0 for volume and open interest, "" for every other field. */
  predicate FilledFrom(rec: OptionRecord, q: Quote) {
    && rec.bidPrice == q.bidPrice.GetOr("")
    && rec.askPrice == q.askPrice.GetOr("")
    && rec.markPrice == q.markPrice.GetOr("")
    && rec.lastTradePrice == q.lastTradePrice.GetOr("")
    && rec.volume == q.volume.GetOr(0)
    && rec.openInterest == q.openInterest.GetOr(0)
    && rec.impliedVolatility == q.impliedVolatility.GetOr("")
    && rec.delta == q.delta.GetOr("")
    && rec.gamma == q.gamma.GetOr("")
    && rec.theta == q.theta.GetOr("")
    && rec.vega == q.vega.GetOr("")
    && rec.rho == q.rho.GetOr("")
    && rec.highPrice == q.highPrice.GetOr("")
    && rec.lowPrice == q.lowPrice.GetOr("")
    && rec.previousClose == q.previousClosePrice.GetOr("")
  }

  /** The body of the per-option `try`: the record built for `option`, or None
      when that body raised or the option had no market data. */
  function AssembleOption(broker: Broker, symbol: string, expDate: Date, option: Instrument): (r: Option<OptionRecord>)
    ensures r.Some? <==> Kept(broker, option)
    ensures r.Some? ==>
      && r.value.symbol == symbol
      && r.value.expirationDate == expDate
      && r.value.strikePrice == option.strikePrice.value
      && r.value.optionType == option.optionType.value
      && FilledFrom(r.value, broker.marketData(option.id.value).value[0])
  {
    if option.strikePrice.None? || option.optionType.None? || option.id.None? then None
    else
      match broker.marketData(option.id.value)
      case None => None
      case Some(quotes) =>
        if |quotes| == 0 then None
        else
          var q := quotes[0];
          Some(OptionRecord(
            symbol, expDate, option.strikePrice.value, option.optionType.value,
            q.bidPrice.GetOr(""), q.askPrice.GetOr(""), q.markPrice.GetOr(""), q.lastTradePrice.GetOr(""),
            q.volume.GetOr(0), q.openInterest.GetOr(0),
            q.impliedVolatility.GetOr(""), q.delta.GetOr(""), q.gamma.GetOr(""), q.theta.GetOr(""),
            q.vega.GetOr(""), q.rho.GetOr(""), q.highPrice.GetOr(""), q.lowPrice.GetOr(""),
            q.previousClosePrice.GetOr("")))
  }

  /** The records kept from `options`, in listing order. */
  function AssembleAll(broker: Broker, symbol: string, expDate: Date, options: seq<Instrument>): (r: seq<OptionRecord>)
    ensures |r| <= |options|
    ensures forall k :: 0 <= k < |r| ==> r[k].symbol == symbol && r[k].expirationDate == expDate
  {
    if options == [] then []
    else
      var rest := AssembleAll(broker, symbol, expDate, options[..|options| - 1]);
      match AssembleOption(broker, symbol, expDate, options[|options| - 1])
      case Some(rec) => rest + [rec]
      case None => rest
  }

  /** What fetching one expiration yields: None when listing its options
      raised, [] when there were none, otherwise the kept records. */
  function FetchExpiration(broker: Broker, symbol: string, expDate: Date): (r: Option<seq<OptionRecord>>)
    ensures r.None? <==> broker.findOptions(symbol, expDate).None?
    ensures broker.findOptions(symbol, expDate) == Some([]) ==> r == Some([])
    ensures r.Some? ==> forall k :: 0 <= k < |r.value| ==> r.value[k].symbol == symbol && r.value[k].expirationDate == expDate
  {
    match broker.findOptions(symbol, expDate)
    case None => None
    case Some(options) =>
      if |options| == 0 then Some([]) else Some(AssembleAll(broker, symbol, expDate, options))
  }

  /** Fetches every option of one expiration, keeping the records in memory
      and returning them only once the whole listing has been processed. */
  method FetchOptionsForExpiration(broker: Broker, symbol: string, expDate: Date) returns (r: Option<seq<OptionRecord>>)
    ensures r == FetchExpiration(broker, symbol, expDate)
  {
    var listed := broker.findOptions(symbol, expDate);
    if listed.None? {
      return None;
    }
    var options := listed.value;
    if |options| == 0 {
      return Some([]);
    }
    var batchOptions: seq<OptionRecord> := [];
    for i := 0 to |options|
      invariant batchOptions == AssembleAll(broker, symbol, expDate, options[..i])
    {
      assert options[..i + 1][..i] == options[..i];
      var rec := AssembleOption(broker, symbol, expDate, options[i]);
      if rec.Some? {
        batchOptions := batchOptions + [rec.value];
      }
    }
    assert options[..|options|] == options;
    return Some(batchOptions);
  }

  /** The output order of one block: calls before puts ("call" < "put"), then by strike. */
  predicate TypeStrikeLe(a: OptionRecord, b: OptionRecord) {
    || (a.optionType == Call && b.optionType == Put)
    || (a.optionType == b.optionType && a.strikePrice <= b.strikePrice)
  }

  lemma TypeStrikeLeIsTotalPreorder()
    ensures Sorting.TotalPreorder(TypeStrikeLe)
  {
  }

  /** `sort_values(['option_type', 'strike_price'])` of one expiration's records. */
  function SortByTypeStrike(rs: seq<OptionRecord>): (r: seq<OptionRecord>)
    ensures Sorting.Ordered(r, TypeStrikeLe)
    ensures multiset(r) == multiset(rs) && |r| == |rs|
  {
    TypeStrikeLeIsTotalPreorder();
    Sorting.InsertionSort(rs, TypeStrikeLe)
  }

  // ---------------------------------------------------------------------
  // The CSV output file
  // ---------------------------------------------------------------------

  /** A line of the CSV file: the header line, or one record. */
  datatype Line = Header | Row(record: OptionRecord)

  /** The rows of `rs` as CSV lines, in order. */
  function RowLines(rs: seq<OptionRecord>): (ls: seq<Line>)
    ensures |ls| == |rs|
    ensures forall i :: 0 <= i < |rs| ==> ls[i] == Row(rs[i])
  {
    if rs == [] then [] else RowLines(rs[..|rs| - 1]) + [Row(rs[|rs| - 1])]
  }

  /** The number of header lines in `lines`. */
  function Headers(lines: seq<Line>): nat {
    if lines == [] then 0 else Headers(lines[..|lines| - 1]) + (if lines[|lines| - 1] == Header then 1 else 0)
  }

  /** At most one header, and only as the first line. */
  predicate WellFormed(lines: seq<Line>) {
    forall i :: 0 < i < |lines| ==> lines[i].Row?
  }

  /** The output file: whether it exists, and its lines. */
  class CsvFile {
    var present: bool
    var lines: seq<Line>

    ghost predicate Valid()
      reads this
    {
      !present ==> lines == []
    }

    /** A file as found on disk: absent and empty, or present with `lines`. */
    constructor(present: bool, lines: seq<Line>)
      requires !present ==> lines == []
      ensures Valid() && this.present == present && this.lines == lines
    {
      this.present := present;
      this.lines := lines;
    }

    /** `DataFrame.to_csv(path, mode = 'w' if header else 'a', header = header)`:
        with a header the file is replaced, otherwise the rows are appended. */
    method WriteBlock(block: seq<OptionRecord>, header: bool)
      requires Valid()
      modifies this
      ensures Valid() && present
      ensures lines == (if header then [Header] else old(lines)) + RowLines(block)
    {
      if header {
        lines := [Header] + RowLines(block);
      } else {
        lines := lines + RowLines(block);
      }
      present := true;
    }
  }

  /** The value pandas reads in the `expiration_date` column of a data line;
      a stray header line is read as the column's own name. */
  function CellDate(line: Line): Date {
    match line
    case Header => "expiration_date"
    case Row(r) => r.expirationDate
  }

  /** The distinct `expiration_date` values of the data lines `lines`. */
  function ColumnDates(lines: seq<Line>): (ds: set<Date>)
    ensures forall d :: d in ds <==> exists i :: 0 <= i < |lines| && CellDate(lines[i]) == d
  {
    if lines == [] then {}
    else
      var init := lines[..|lines| - 1];
      var ds := ColumnDates(init) + {CellDate(lines[|lines| - 1])};
      assert forall i :: 0 <= i < |init| ==> init[i] == lines[i];
      ds
  }

  /** The file exists and starts with the header line: pandas then reads it
      into a table with the record's columns. An empty file fails to parse,
      and a file whose first line is a row has none of those columns. */
  predicate HasHeader(present: bool, lines: seq<Line>) {
    present && |lines| > 0 && lines[0] == Header
  }

  /** The closing re-read of a download succeeds: the file has the header and
      no further header line. A second header line is read as a row whose
      `strike_price` cell is text, and formatting that column's minimum as a
      number raises. */
  predicate Rereadable(present: bool, lines: seq<Line>) {
    HasHeader(present, lines) && WellFormed(lines)
  }

  /** The expiration dates already in the file: its distinct `expiration_date`
      values, or the empty set when the file is absent, cannot be read (it is
      empty) or has no `expiration_date` column (its first line is not the header). */
  function GetCompletedExpirations(present: bool, lines: seq<Line>): (r: set<Date>)
    ensures !HasHeader(present, lines) ==> r == {}
    ensures HasHeader(present, lines) ==>
      forall d :: d in r <==> exists i :: 1 <= i < |lines| && CellDate(lines[i]) == d
  {
    if HasHeader(present, lines) then
      var ds := ColumnDates(lines[1..]);
      assert forall i :: 1 <= i < |lines| ==> lines[1..][i - 1] == lines[i];
      ds
    else {}
  }

  // ---------------------------------------------------------------------
  // The download loop, as functions of its inputs
  // ---------------------------------------------------------------------

  /** The outcome of fetching each expiration date of one session. */
  type Fetcher = Date -> Option<seq<OptionRecord>>

  /** The fetcher of a session for `symbol`. */
  function SessionFetch(broker: Broker, symbol: string): Fetcher {
    d => FetchExpiration(broker, symbol, d)
  }

  /** Every record fetched for a date carries that date. */
  ghost predicate Tagged(fetch: Fetcher) {
    forall d :: fetch(d).Some? ==> forall k :: 0 <= k < |fetch(d).value| ==> fetch(d).value[k].expirationDate == d
  }

  lemma SessionFetchIsTagged(broker: Broker, symbol: string)
    ensures Tagged(SessionFetch(broker, symbol))
  {
    forall d | SessionFetch(broker, symbol)(d).Some?
      ensures forall k :: 0 <= k < |SessionFetch(broker, symbol)(d).value| ==> SessionFetch(broker, symbol)(d).value[k].expirationDate == d
    {
      assert SessionFetch(broker, symbol)(d) == FetchExpiration(broker, symbol, d);
    }
  }

  /** The completed set the run starts from: read from the file only in
      continue mode and only when the file exists. */
  function Checkpoint(continueMode: bool, present: bool, lines: seq<Line>): set<Date> {
    if continueMode && present then GetCompletedExpirations(present, lines) else {}
  }

  /** What happens to one expiration date. */
  datatype Step = Skip | Commit(block: seq<OptionRecord>) | NoData | Failed

  function StepFor(fetch: Fetcher, d: Date, completed: set<Date>): (r: Step)
    ensures r.Skip? <==> d in completed
    ensures r.Failed? <==> d !in completed && fetch(d).None?
    ensures r.NoData? <==> d !in completed && fetch(d) == Some([])
  {
    if d in completed then Skip
    else
      match fetch(d)
      case None => Failed
      case Some(rs) => if |rs| == 0 then NoData else Commit(SortByTypeStrike(rs))
  }

  /** A committed block is the expiration's fetched records, sorted by type and
      strike; it is not empty, and when the fetch tags its records, every
      record in it carries the date. */
  lemma CommitShape(fetch: Fetcher, d: Date, completed: set<Date>)
    requires StepFor(fetch, d, completed).Commit?
    ensures
      var block := StepFor(fetch, d, completed).block;
      && fetch(d).Some? && |block| > 0
      && multiset(block) == multiset(fetch(d).value)
      && Sorting.Ordered(block, TypeStrikeLe)
    ensures Tagged(fetch) ==> DatesOf(StepFor(fetch, d, completed).block) == {d}
  {
    var block := StepFor(fetch, d, completed).block;
    var rs := fetch(d).value;
    assert forall k :: 0 <= k < |block| ==> block[k] in multiset(rs);
    assert block[0] in block;
    if Tagged(fetch) {
      forall r | r in block ensures r.expirationDate == d {
        assert r in multiset(rs);
        var k :| 0 <= k < |rs| && rs[k] == r;
      }
    }
  }

  /** The blocks a run appends, in the order of the date list. */
  function Blocks(fetch: Fetcher, dates: seq<Date>, completed: set<Date>): seq<seq<OptionRecord>> {
    if dates == [] then []
    else
      var prefix := Blocks(fetch, dates[..|dates| - 1], completed);
      match StepFor(fetch, dates[|dates| - 1], completed)
      case Commit(block) => prefix + [block]
      case _ => prefix
  }

  /** How many entries of `dates` are already complete. */
  function SkipCount(dates: seq<Date>, completed: set<Date>): nat {
    if dates == [] then 0
    else SkipCount(dates[..|dates| - 1], completed) + (if dates[|dates| - 1] in completed then 1 else 0)
  }

  /** The dates a run fetches: those of the list not already complete, in order. */
  function Pending(dates: seq<Date>, completed: set<Date>): (r: seq<Date>)
    ensures forall k :: 0 <= k < |r| ==> r[k] in dates && r[k] !in completed
    ensures forall d :: d in dates && d !in completed ==> d in r
  {
    if dates == [] then []
    else
      var init := dates[..|dates| - 1];
      var last := dates[|dates| - 1];
      assert forall d :: d in dates <==> d in init || d == last by { assert dates == init + [last]; }
      Pending(init, completed) + (if last in completed then [] else [last])
  }

  /** The blocks one after the other. */
  function Flatten(blocks: seq<seq<OptionRecord>>): seq<OptionRecord> {
    if blocks == [] then [] else Flatten(blocks[..|blocks| - 1]) + blocks[|blocks| - 1]
  }

  /** The file's lines after a run that appended `blocks`: untouched when there
      are none; otherwise the first write replaces the file with a header when
      the run started fresh (no completed dates), and appends otherwise. */
  function FinalLines(lines: seq<Line>, startFresh: bool, blocks: seq<seq<OptionRecord>>): seq<Line> {
    if blocks == [] then lines
    else (if startFresh then [Header] else lines) + RowLines(Flatten(blocks))
  }

  /** The dates a run commits: in the list, not complete, fetched with at least one record. */
  function CommittedDates(fetch: Fetcher, dates: seq<Date>, completed: set<Date>): set<Date> {
    set d | d in dates && StepFor(fetch, d, completed).Commit?
  }

  // ---------------------------------------------------------------------
  // The download loop
  // ---------------------------------------------------------------------

  /** Downloads the chain of `symbol` into `file`. `expirationDates` is the
      brokerage's list of expiration dates. Returns whether the run hands
      back the file (`download_full_chain` returns its path, or None, or
      raises when its closing re-read of the file fails), the three session
      counters, and, as a ghost, the dates whose options were requested. */
  method DownloadFullChain(broker: Broker, symbol: string, expirationDates: seq<Date>, continueMode: bool, file: CsvFile)
    returns (ok: bool, totalOptions: nat, skipped: nat, fetched: nat, ghost requested: seq<Date>)
    requires file.Valid()
    modifies file
    ensures file.Valid()
    ensures expirationDates == [] || (old(file.present) && !continueMode) ==>
      && !ok && totalOptions == 0 && skipped == 0 && fetched == 0 && requested == []
      && file.present == old(file.present) && file.lines == old(file.lines)
    ensures expirationDates != [] && (continueMode || !old(file.present)) ==>
      var completed := Checkpoint(continueMode, old(file.present), old(file.lines));
      var blocks := Blocks(SessionFetch(broker, symbol), expirationDates, completed);
      && file.lines == FinalLines(old(file.lines), completed == {}, blocks)
      && file.present == (old(file.present) || blocks != [])
      && ok == Rereadable(file.present, file.lines)
      && (blocks != [] && (completed == {} || WellFormed(old(file.lines))) ==> ok)
      && totalOptions == |Flatten(blocks)|
      && fetched == |blocks|
      && skipped == SkipCount(expirationDates, completed)
      && requested == Pending(expirationDates, completed)
  {
    if |expirationDates| == 0 {
      return false, 0, 0, 0, [];
    }
    var completed: set<Date> := {};
    if continueMode && file.present {
      completed := GetCompletedExpirations(file.present, file.lines);
    } else if file.present && !continueMode {
      return false, 0, 0, 0, [];
    }
    ghost var before := file.lines;
    totalOptions, skipped, fetched, requested := DownloadPending(broker, symbol, expirationDates, completed, file);
    HeaderWrittenOnce(before, completed == {}, Blocks(SessionFetch(broker, symbol), expirationDates, completed));
    ok := Rereadable(file.present, file.lines);
  }

  /** One pass of the loop body: skip a completed date; otherwise fetch it, and
      when the fetch has records write them, sorted, as one block (replacing
      the file under a header on the run's first write). */
  method ProcessDate(broker: Broker, symbol: string, expDate: Date, completed: set<Date>, isFirstWrite: bool, file: CsvFile)
    returns (step: Step)
    requires file.Valid()
    modifies file
    ensures file.Valid()
    ensures step == StepFor(SessionFetch(broker, symbol), expDate, completed)
    ensures step.Commit? ==>
      file.present && file.lines == (if isFirstWrite then [Header] else old(file.lines)) + RowLines(step.block)
    ensures !step.Commit? ==> file.present == old(file.present) && file.lines == old(file.lines)
  {
    if expDate in completed {
      return Skip;
    }
    var optionsData := FetchOptionsForExpiration(broker, symbol, expDate);
    if optionsData.None? {
      return Failed;
    }
    if |optionsData.value| == 0 {
      return NoData;
    }
    var block := SortByTypeStrike(optionsData.value);
    file.WriteBlock(block, isFirstWrite);
    step := Commit(block);
  }

  /** The loop of the download: every date of `dates` not in `completed` is
      fetched, and a fetch with records is sorted and written as one block,
      the first write of a run with nothing completed replacing the file
      under a header. */
  method DownloadPending(broker: Broker, symbol: string, dates: seq<Date>, completed: set<Date>, file: CsvFile)
    returns (totalOptions: nat, skipped: nat, fetched: nat, ghost requested: seq<Date>)
    requires file.Valid()
    modifies file
    ensures file.Valid()
    ensures
      var blocks := Blocks(SessionFetch(broker, symbol), dates, completed);
      && file.lines == FinalLines(old(file.lines), completed == {}, blocks)
      && file.present == (old(file.present) || blocks != [])
      && totalOptions == |Flatten(blocks)|
      && fetched == |blocks|
      && skipped == SkipCount(dates, completed)
      && requested == Pending(dates, completed)
  {
    totalOptions, skipped, fetched, requested := 0, 0, 0, [];
    var isFirstWrite := completed == {};
    ghost var lines0, present0 := file.lines, file.present;
    ghost var startFresh := completed == {};
    ghost var fetch := SessionFetch(broker, symbol);

    ghost var blocks: seq<seq<OptionRecord>> := [];
    for i := 0 to |dates|
      invariant blocks == Blocks(fetch, dates[..i], completed)
      invariant file.Valid()
      invariant isFirstWrite == (startFresh && blocks == [])
      invariant file.lines == FinalLines(lines0, startFresh, blocks)
      invariant file.present == (present0 || blocks != [])
      invariant totalOptions == |Flatten(blocks)|
      invariant fetched == |blocks|
      invariant skipped == SkipCount(dates[..i], completed)
      invariant requested == Pending(dates[..i], completed)
    {
      RunStep(fetch, dates, i, completed);
      var step := ProcessDate(broker, symbol, dates[i], completed, isFirstWrite, file);
      match step
      case Skip =>
        skipped := skipped + 1;
      case Commit(block) =>
        AppendBlock(lines0, startFresh, blocks, block);
        requested := requested + [dates[i]];
        totalOptions := totalOptions + |block|;
        fetched := fetched + 1;
        isFirstWrite := false;
        blocks := blocks + [block];
      case _ =>
        requested := requested + [dates[i]];
    }
    assert dates[..|dates|] == dates;
  }


  // ---------------------------------------------------------------------
  // Helper lemmas
  // ---------------------------------------------------------------------

  /** One more date of the list: its step extends the blocks, the skip count
      and the pending dates. */
  lemma RunStep(fetch: Fetcher, dates: seq<Date>, i: nat, completed: set<Date>)
    requires i < |dates|
    ensures
      var step := StepFor(fetch, dates[i], completed);
      && Blocks(fetch, dates[..i + 1], completed)
           == Blocks(fetch, dates[..i], completed) + (if step.Commit? then [step.block] else [])
      && SkipCount(dates[..i + 1], completed) == SkipCount(dates[..i], completed) + (if dates[i] in completed then 1 else 0)
      && Pending(dates[..i + 1], completed) == Pending(dates[..i], completed) + (if dates[i] in completed then [] else [dates[i]])
  {
    assert dates[..i + 1][..i] == dates[..i];
  }

  /** One more block: the first write of a fresh run replaces the file, any
      other write appends. */
  lemma AppendBlock(lines: seq<Line>, startFresh: bool, before: seq<seq<OptionRecord>>, block: seq<OptionRecord>)
    ensures Flatten(before + [block]) == Flatten(before) + block
    ensures FinalLines(lines, startFresh, before + [block])
      == (if startFresh && before == [] then [Header] else FinalLines(lines, startFresh, before)) + RowLines(block)
  {
    assert (before + [block])[..|before|] == before;
    RowLinesAppend(Flatten(before), block);
  }

  /** Reading the file back after appending `blocks` to it gives its completed
      set before, together with the dates of the appended rows. */
  lemma CompletedAfterAppend(present: bool, lines: seq<Line>, blocks: seq<seq<OptionRecord>>)
    ensures
      var c := GetCompletedExpirations(present, lines);
      GetCompletedExpirations(present || blocks != [], FinalLines(lines, c == {}, blocks)) == c + DatesOf(Flatten(blocks))
  {
    var c := GetCompletedExpirations(present, lines);
    if blocks == [] {
      assert Flatten(blocks) == [];
    } else if c == {} {
      CompletedOfFreshFile(Flatten(blocks));
    } else {
      CompletedOfAppendedFile(lines, Flatten(blocks));
    }
  }

  lemma CompletedOfFreshFile(rows: seq<OptionRecord>)
    ensures GetCompletedExpirations(true, [Header] + RowLines(rows)) == DatesOf(rows)
  {
    assert ([Header] + RowLines(rows))[1..] == RowLines(rows);
    ColumnDatesOfRows(rows);
  }

  lemma CompletedOfAppendedFile(lines: seq<Line>, rows: seq<OptionRecord>)
    requires |lines| > 0 && lines[0] == Header
    ensures GetCompletedExpirations(true, lines + RowLines(rows)) == ColumnDates(lines[1..]) + DatesOf(rows)
  {
    assert (lines + RowLines(rows))[1..] == lines[1..] + RowLines(rows);
    ColumnDatesAppend(lines[1..], RowLines(rows));
    ColumnDatesOfRows(rows);
  }

  lemma RowLinesAppend(a: seq<OptionRecord>, b: seq<OptionRecord>)
    ensures RowLines(a + b) == RowLines(a) + RowLines(b)
  {
    assert |RowLines(a + b)| == |RowLines(a) + RowLines(b)|;
    forall i | 0 <= i < |a| + |b| ensures RowLines(a + b)[i] == (RowLines(a) + RowLines(b))[i] {
      if i < |a| { assert (a + b)[i] == a[i]; } else { assert (a + b)[i] == b[i - |a|]; }
    }
  }

  lemma ColumnDatesAppend(a: seq<Line>, b: seq<Line>)
    ensures ColumnDates(a + b) == ColumnDates(a) + ColumnDates(b)
  {
    forall d ensures d in ColumnDates(a + b) <==> d in ColumnDates(a) + ColumnDates(b) {
      if d in ColumnDates(a + b) {
        var i :| 0 <= i < |a + b| && CellDate((a + b)[i]) == d;
        if i < |a| { assert (a + b)[i] == a[i]; } else { assert (a + b)[i] == b[i - |a|]; }
      }
      if d in ColumnDates(a) {
        var i :| 0 <= i < |a| && CellDate(a[i]) == d;
        assert (a + b)[i] == a[i];
      }
      if d in ColumnDates(b) {
        var i :| 0 <= i < |b| && CellDate(b[i]) == d;
        assert (a + b)[|a| + i] == b[i];
      }
    }
  }

  lemma ColumnDatesOfRows(rs: seq<OptionRecord>)
    ensures ColumnDates(RowLines(rs)) == DatesOf(rs)
  {
    var ls := RowLines(rs);
    forall d ensures d in ColumnDates(ls) <==> d in DatesOf(rs) {
      if d in ColumnDates(ls) {
        var i :| 0 <= i < |ls| && CellDate(ls[i]) == d;
        assert rs[i] in rs;
      }
      if d in DatesOf(rs) {
        var r :| r in rs && r.expirationDate == d;
        var i :| 0 <= i < |rs| && rs[i] == r;
        assert CellDate(ls[i]) == d;
      }
    }
  }

  lemma HeadersAppend(a: seq<Line>, b: seq<Line>)
    ensures Headers(a + b) == Headers(a) + Headers(b)
  {
    if b != [] {
      assert (a + b)[..|a + b| - 1] == a + b[..|b| - 1];
      HeadersAppend(a, b[..|b| - 1]);
    } else {
      assert a + b == a;
    }
  }

  lemma {:induction false} HeadersOfRows(rs: seq<OptionRecord>)
    ensures Headers(RowLines(rs)) == 0
  {
    if rs != [] {
      HeadersOfRows(rs[..|rs| - 1]);
      HeadersAppend(RowLines(rs[..|rs| - 1]), [Row(rs[|rs| - 1])]);
    }
  }

  lemma {:induction false} FlattenAppend(a: seq<seq<OptionRecord>>, b: seq<seq<OptionRecord>>)
    ensures Flatten(a + b) == Flatten(a) + Flatten(b)
  {
    if b == [] {
      assert a + b == a;
    } else {
      assert (a + b)[..|a + b| - 1] == a + b[..|b| - 1];
      FlattenAppend(a, b[..|b| - 1]);
    }
  }

  lemma DatesOfAppend(a: seq<OptionRecord>, b: seq<OptionRecord>)
    ensures DatesOf(a + b) == DatesOf(a) + DatesOf(b)
  {
    forall d ensures d in DatesOf(a + b) <==> d in DatesOf(a) + DatesOf(b) {
      if d in DatesOf(a + b) {
        var r :| r in a + b && r.expirationDate == d;
      }
    }
  }

  // ---------------------------------------------------------------------
  // Properties of a run
  // ---------------------------------------------------------------------

  /** The positions in `options` of the options whose processing completes. */
  function KeptIndices(broker: Broker, options: seq<Instrument>): (idx: seq<nat>)
    ensures forall k :: 0 <= k < |idx| ==> idx[k] < |options|
  {
    if options == [] then []
    else KeptIndices(broker, options[..|options| - 1]) + (if Kept(broker, options[|options| - 1]) then [|options| - 1] else [])
  }

  lemma {:induction false} KeptIndicesMatch(broker: Broker, symbol: string, expDate: Date, options: seq<Instrument>)
    ensures |KeptIndices(broker, options)| == |AssembleAll(broker, symbol, expDate, options)|
    ensures forall k :: 0 <= k < |KeptIndices(broker, options)| ==>
      AssembleOption(broker, symbol, expDate, options[KeptIndices(broker, options)[k]])
        == Some(AssembleAll(broker, symbol, expDate, options)[k])
  {
    if options != [] {
      var init := options[..|options| - 1];
      KeptIndicesMatch(broker, symbol, expDate, init);
      var prev := KeptIndices(broker, init);
      assert forall k :: 0 <= k < |prev| ==> options[prev[k]] == init[prev[k]];
    }
  }

  lemma {:induction false} KeptIndicesIncreasing(broker: Broker, options: seq<Instrument>)
    ensures forall k, l :: 0 <= k < l < |KeptIndices(broker, options)| ==>
      KeptIndices(broker, options)[k] < KeptIndices(broker, options)[l]
  {
    if options != [] {
      var init := options[..|options| - 1];
      KeptIndicesIncreasing(broker, init);
      var prev := KeptIndices(broker, init);
      assert forall k :: 0 <= k < |prev| ==> prev[k] < |options| - 1;
    }
  }

  lemma {:induction false} KeptIndicesComplete(broker: Broker, options: seq<Instrument>)
    ensures forall i :: 0 <= i < |options| && Kept(broker, options[i]) ==> i in KeptIndices(broker, options)
  {
    if options != [] {
      var init := options[..|options| - 1];
      KeptIndicesComplete(broker, init);
      forall i | 0 <= i < |options| - 1 && Kept(broker, options[i]) ensures i in KeptIndices(broker, options) {
        assert init[i] == options[i];
      }
    }
  }

  /** The kept records come out in listing order, one per option whose
      processing completed, and none for any other option. */
  lemma AssembledInOrder(broker: Broker, symbol: string, expDate: Date, options: seq<Instrument>)
    returns (idx: seq<nat>)
    ensures |idx| == |AssembleAll(broker, symbol, expDate, options)|
    ensures forall k :: 0 <= k < |idx| ==>
      idx[k] < |options| && AssembleOption(broker, symbol, expDate, options[idx[k]]) == Some(AssembleAll(broker, symbol, expDate, options)[k])
    ensures forall k, l :: 0 <= k < l < |idx| ==> idx[k] < idx[l]
    ensures forall i :: 0 <= i < |options| && Kept(broker, options[i]) ==> i in idx
  {
    idx := KeptIndices(broker, options);
    KeptIndicesMatch(broker, symbol, expDate, options);
    KeptIndicesIncreasing(broker, options);
    KeptIndicesComplete(broker, options);
  }

  /** The positions in `dates` of the dates whose step commits a block. */
  function CommitIndices(fetch: Fetcher, dates: seq<Date>, completed: set<Date>): (idx: seq<nat>)
    ensures |idx| == |Blocks(fetch, dates, completed)|
    ensures forall k :: 0 <= k < |idx| ==> idx[k] < |dates|
  {
    if dates == [] then []
    else
      CommitIndices(fetch, dates[..|dates| - 1], completed)
        + (if StepFor(fetch, dates[|dates| - 1], completed).Commit? then [|dates| - 1] else [])
  }

  lemma {:induction false} CommitIndicesMatch(fetch: Fetcher, dates: seq<Date>, completed: set<Date>)
    ensures
      var idx := CommitIndices(fetch, dates, completed);
      forall k :: 0 <= k < |idx| ==> StepFor(fetch, dates[idx[k]], completed) == Commit(Blocks(fetch, dates, completed)[k])
  {
    if dates != [] {
      var init := dates[..|dates| - 1];
      CommitIndicesMatch(fetch, init, completed);
      var prev := CommitIndices(fetch, init, completed);
      assert forall k :: 0 <= k < |prev| ==> dates[prev[k]] == init[prev[k]];
    }
  }

  lemma {:induction false} CommitIndicesIncreasing(fetch: Fetcher, dates: seq<Date>, completed: set<Date>)
    ensures forall k, l :: 0 <= k < l < |CommitIndices(fetch, dates, completed)| ==>
      CommitIndices(fetch, dates, completed)[k] < CommitIndices(fetch, dates, completed)[l]
  {
    if dates != [] {
      var init := dates[..|dates| - 1];
      CommitIndicesIncreasing(fetch, init, completed);
      var prev := CommitIndices(fetch, init, completed);
      assert forall k :: 0 <= k < |prev| ==> prev[k] < |dates| - 1;
    }
  }

  lemma {:induction false} CommitIndicesComplete(fetch: Fetcher, dates: seq<Date>, completed: set<Date>)
    ensures forall i :: 0 <= i < |dates| && StepFor(fetch, dates[i], completed).Commit? ==> i in CommitIndices(fetch, dates, completed)
  {
    if dates != [] {
      var init := dates[..|dates| - 1];
      CommitIndicesComplete(fetch, init, completed);
      forall i | 0 <= i < |dates| - 1 && StepFor(fetch, dates[i], completed).Commit?
        ensures i in CommitIndices(fetch, dates, completed)
      {
        assert init[i] == dates[i];
      }
    }
  }

  /** Every appended block is the sorted fetch of a date of the list, the
      blocks follow the list's order, and every committed date has its block. */
  lemma BlocksFollowDateList(fetch: Fetcher, dates: seq<Date>, completed: set<Date>)
    returns (idx: seq<nat>)
    ensures |idx| == |Blocks(fetch, dates, completed)|
    ensures forall k :: 0 <= k < |idx| ==>
      idx[k] < |dates| && StepFor(fetch, dates[idx[k]], completed) == Commit(Blocks(fetch, dates, completed)[k])
    ensures forall k, l :: 0 <= k < l < |idx| ==> idx[k] < idx[l]
    ensures forall i :: 0 <= i < |dates| && StepFor(fetch, dates[i], completed).Commit? ==> i in idx
  {
    idx := CommitIndices(fetch, dates, completed);
    CommitIndicesMatch(fetch, dates, completed);
    CommitIndicesIncreasing(fetch, dates, completed);
    CommitIndicesComplete(fetch, dates, completed);
  }

  /** The dates of the appended rows are exactly the committed dates; in
      particular no date already in the file is appended again. */
  lemma {:induction false} AppendedDatesAreCommitted(fetch: Fetcher, dates: seq<Date>, completed: set<Date>)
    requires Tagged(fetch)
    ensures DatesOf(Flatten(Blocks(fetch, dates, completed))) == CommittedDates(fetch, dates, completed)
    ensures DatesOf(Flatten(Blocks(fetch, dates, completed))) !! completed
  {
    if dates != [] {
      var init := dates[..|dates| - 1];
      var d := dates[|dates| - 1];
      assert dates == init + [d];
      AppendedDatesAreCommitted(fetch, init, completed);
      var prev := Blocks(fetch, init, completed);
      var step := StepFor(fetch, d, completed);
      if step.Commit? {
        FlattenAppend(prev, [step.block]);
        assert Flatten([step.block]) == step.block by { assert [step.block][..0] == []; }
        DatesOfAppend(Flatten(prev), step.block);
        CommitShape(fetch, d, completed);
      }
      assert CommittedDates(fetch, dates, completed)
        == CommittedDates(fetch, init, completed) + (if step.Commit? then {d} else {});
    }
  }

  /** Every date is skipped, committed or neither, so the two counters never
      exceed the length of the list. */
  lemma {:induction false} CountersBounded(fetch: Fetcher, dates: seq<Date>, completed: set<Date>)
    ensures |Blocks(fetch, dates, completed)| + SkipCount(dates, completed) <= |dates|
  {
    if dates != [] {
      CountersBounded(fetch, dates[..|dates| - 1], completed);
    }
  }

  /** Reading the completed set back after a run gives the set the run started
      from together with the dates it committed: the resume checkpoint. */
  lemma CheckpointAfterRun(fetch: Fetcher, dates: seq<Date>, continueMode: bool, present: bool, lines: seq<Line>)
    requires Tagged(fetch)
    requires continueMode || !present
    ensures
      var completed := Checkpoint(continueMode, present, lines);
      var blocks := Blocks(fetch, dates, completed);
      GetCompletedExpirations(present || blocks != [], FinalLines(lines, completed == {}, blocks))
        == completed + CommittedDates(fetch, dates, completed)
  {
    var completed := Checkpoint(continueMode, present, lines);
    assert completed == GetCompletedExpirations(present, lines);
    AppendedDatesAreCommitted(fetch, dates, completed);
    CompletedAfterAppend(present, lines, Blocks(fetch, dates, completed));
  }

  /** A date whose fetch failed or returned nothing is absent after the run,
      so a later resume requests it again. */
  lemma FailedExpirationRetried(fetch: Fetcher, dates: seq<Date>, continueMode: bool, present: bool, lines: seq<Line>, d: Date)
    requires Tagged(fetch)
    requires continueMode || !present
    requires d !in Checkpoint(continueMode, present, lines)
    requires fetch(d).None? || fetch(d) == Some([])
    ensures
      var completed := Checkpoint(continueMode, present, lines);
      var blocks := Blocks(fetch, dates, completed);
      && d !in DatesOf(Flatten(blocks))
      && d !in GetCompletedExpirations(present || blocks != [], FinalLines(lines, completed == {}, blocks))
  {
    var completed := Checkpoint(continueMode, present, lines);
    AppendedDatesAreCommitted(fetch, dates, completed);
    CheckpointAfterRun(fetch, dates, continueMode, present, lines);
    assert !StepFor(fetch, d, completed).Commit?;
  }

  /** A run writes a header only on its first write, and only when it started
      with no completed dates; every other write appends rows, so a file that
      had at most one header, in front, still has. */
  lemma HeaderWrittenOnce(lines: seq<Line>, startFresh: bool, blocks: seq<seq<OptionRecord>>)
    ensures Headers(FinalLines(lines, startFresh, blocks)) == (if startFresh && blocks != [] then 1 else Headers(lines))
    ensures WellFormed(lines) ==> WellFormed(FinalLines(lines, startFresh, blocks))
    ensures startFresh && blocks != [] ==> FinalLines(lines, startFresh, blocks)[0] == Header
    ensures startFresh && blocks != [] ==> WellFormed(FinalLines(lines, startFresh, blocks))
  {
    if blocks != [] {
      var rows := RowLines(Flatten(blocks));
      HeadersOfRows(Flatten(blocks));
      if startFresh {
        HeadersAppend([Header], rows);
        assert Headers([Header]) == 1 by { assert [Header][..0] == []; }
      } else {
        HeadersAppend(lines, rows);
      }
    }
  }

  /** Resuming never appends a date again: a second run in continue mode on the
      file a first run left appends none of the dates the file held before the
      first run or that the first run committed, and afterwards the file's
      completed set is the union of all three. */
  lemma ResumeNeverDuplicates(
    fetch: Fetcher, fetch2: Fetcher, dates: seq<Date>, dates2: seq<Date>,
    continueMode: bool, present: bool, lines: seq<Line>)
    requires Tagged(fetch) && Tagged(fetch2)
    requires continueMode || !present
    ensures
      var c1 := Checkpoint(continueMode, present, lines);
      var b1 := Blocks(fetch, dates, c1);
      var present1, lines1 := present || b1 != [], FinalLines(lines, c1 == {}, b1);
      var c2 := Checkpoint(true, present1, lines1);
      var b2 := Blocks(fetch2, dates2, c2);
      && c2 == c1 + DatesOf(Flatten(b1))
      && DatesOf(Flatten(b2)) !! c1 + DatesOf(Flatten(b1))
      && GetCompletedExpirations(present1 || b2 != [], FinalLines(lines1, c2 == {}, b2))
           == c1 + DatesOf(Flatten(b1)) + DatesOf(Flatten(b2))
  {
    var c1 := Checkpoint(continueMode, present, lines);
    var b1 := Blocks(fetch, dates, c1);
    var present1, lines1 := present || b1 != [], FinalLines(lines, c1 == {}, b1);
    CheckpointAfterRun(fetch, dates, continueMode, present, lines);
    AppendedDatesAreCommitted(fetch, dates, c1);
    var c2 := Checkpoint(true, present1, lines1);
    assert c2 == GetCompletedExpirations(present1, lines1);
    CheckpointAfterRun(fetch2, dates2, true, present1, lines1);
    AppendedDatesAreCommitted(fetch2, dates2, c2);
  }

  /** With a date list free of repetitions, no two appended blocks share an
      expiration date, so the file never holds an expiration twice. */
  lemma NoDuplicateExpirations(fetch: Fetcher, dates: seq<Date>, completed: set<Date>)
    requires Tagged(fetch)
    requires forall i, j :: 0 <= i < j < |dates| ==> dates[i] != dates[j]
    ensures
      var blocks := Blocks(fetch, dates, completed);
      forall k, l :: 0 <= k < l < |blocks| ==> DatesOf(blocks[k]) !! DatesOf(blocks[l])
  {
    var blocks := Blocks(fetch, dates, completed);
    var idx := BlocksFollowDateList(fetch, dates, completed);
    forall k, l | 0 <= k < l < |blocks| ensures DatesOf(blocks[k]) !! DatesOf(blocks[l]) {
      CommitShape(fetch, dates[idx[k]], completed);
      CommitShape(fetch, dates[idx[l]], completed);
    }
  }
}
