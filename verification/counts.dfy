/** The life of a stock count: DRAFT, IN_PROGRESS, COMPLETED, then approved once, or CANCELLED. */
module StockCounts {
  import opened Outcome
  import opened Sums
  import opened Lots
  import opened StockEngine
  import opened Fefo
  import opened Ledger
  import opened LedgerInvariant
  import opened Holds
  import opened EveryRun
  import opened TillService
  import opened CountFigures

  datatype CountStatus = CountDraft | InProgress | Completed | CountCancelled

  datatype LineStatus = Uncounted | RecountRequired | Counted | Resolved

  /** `counter` is who counted first; `figure` the quantity that stands; `keys` the submission keys used. */
  datatype CountLine = CountLine(lot: nat, status: LineStatus, expected: int, counter: Option<nat>,
                                 figure: int, movement: int, variance: int, keys: set<string>)

  datatype Count = Count(status: CountStatus, startedAt: Option<int>, approved: bool, lines: seq<CountLine>)

  function OnHand(s: State, l: nat): int { if l < |s.shelf.lots| then s.shelf.lots[l].remaining else 0 }

  function Freeze(s: State, lines: seq<CountLine>): (r: seq<CountLine>)
    ensures |r| == |lines|
    ensures forall i :: 0 <= i < |r| ==> r[i] == lines[i].(expected := OnHand(s, lines[i].lot))
  {
    if lines == [] then []
    else
      var k := |lines| - 1;
      Freeze(s, lines[..k]) + [lines[k].(expected := OnHand(s, lines[k].lot))]
  }

  function StartCount(c: Count, s: State, now: int): Result<Count> {
    if !c.status.CountDraft? then Err(409)
    else Ok(c.(status := InProgress, startedAt := Some(now), lines := Freeze(s, c.lines)))
  }

  /** Who submits, with what, and who else could take a recount. */
  datatype Entry = Entry(line: nat, quantity: int, actor: nat, sub: Submission, unitCost: nat, othersAvailable: bool,
                         now: int)

  predicate KeyUsed(c: Count, key: Option<string>) {
    key.Some? && exists i :: 0 <= i < |c.lines| && key.value in c.lines[i].keys
  }

  function WithKey(keys: set<string>, key: Option<string>): set<string> {
    if key.Some? then keys + {key.value} else keys
  }

  /** One physical figure. A key seen before on the line is a replay and changes nothing, whatever became
      of the count; one seen on another line, of this count or (`foreign`) of any other, is refused. A
      first figure over the threshold asks for a recount; the recount stands. */
  function SubmitLine(c: Count, s: State, e: Entry, t: Thresholds, foreign: set<string>): Result<Count> {
    if e.quantity < 0 then Err(400)
    else if KeyUsed(c, e.sub.key) then
      if e.line < |c.lines| && e.sub.key.value in c.lines[e.line].keys then Ok(c) else Err(409)
    else if e.sub.key.Some? && e.sub.key.value in foreign then Err(409)
    else if !c.status.InProgress? then Err(409)
    else if e.line >= |c.lines| || c.lines[e.line].lot >= |s.shelf.lots| then Err(404)
    else
      var line := c.lines[e.line];
      if !line.status.Uncounted? && !line.status.RecountRequired? then Err(409)
      else if line.status.RecountRequired? && line.counter == Some(e.actor) && e.othersAvailable then Err(409)
      else
        var atCount := QuantityAtCount(s, line.lot, ResolveCountedAt(e.sub, c.startedAt, e.now), e.now);
        var variance := e.quantity - atCount;
        var status :=
          if line.status.RecountRequired? then Resolved
          else if ExceedsRecountThreshold(atCount, variance, VarianceValue(e.unitCost, variance), t)
            then RecountRequired
          else Counted;
        Ok(c.(lines := c.lines[e.line := line.(
          status := status, figure := e.quantity, movement := line.expected - atCount, variance := variance,
          counter := if line.status.RecountRequired? then line.counter else Some(e.actor),
          keys := WithKey(line.keys, e.sub.key))]))
  }

  predicate AllCounted(lines: seq<CountLine>) {
    forall i :: 0 <= i < |lines| ==> lines[i].status.Counted? || lines[i].status.Resolved?
  }

  function CompleteCount(c: Count): Result<Count> {
    if !c.status.InProgress? then Err(409)
    else if !AllCounted(c.lines) then Err(409)
    else Ok(c.(status := Completed))
  }

  function CancelCount(c: Count, reasonGiven: bool): Result<Count> {
    if !reasonGiven then Err(400)
    else if c.status.CountCancelled? || c.approved then Err(409)
    else Ok(c.(status := CountCancelled))
  }

  function Variances(lines: seq<CountLine>): (r: seq<Variance>)
    ensures |r| == |lines| && forall i :: 0 <= i < |r| ==> r[i] == Variance(lines[i].lot, lines[i].variance)
  {
    if lines == [] then []
    else Variances(lines[..|lines| - 1]) + [Variance(lines[|lines| - 1].lot, lines[|lines| - 1].variance)]
  }

  datatype Approval = Approval(count: Count, books: State)

  function ApproveCount(c: Count, s: State, overrideBlocked: bool): Result<Approval> {
    if !c.status.Completed? || c.approved then Err(409)
    else match ApproveVariances(s, Variances(c.lines), overrideBlocked)
      case Err(e) => Err(e)
      case Ok(t) => Ok(Approval(c.(approved := true), t))
  }

  // ---- Runs of one count ----

  datatype Act =
    | Start(now: int)
    | Submit(entry: Entry, thresholds: Thresholds, foreign: set<string>)
    | Complete
    | Cancel(reasonGiven: bool)
    | Approve(overrideBlocked: bool)
    | Trade(event: Event)

  /** The count, the books, and how often this count has adjusted stock. */
  datatype Stage = Stage(count: Count, books: State, adjusted: nat)

  function Keep(g: Stage, r: Result<Count>): Stage { if r.Ok? then g.(count := r.value) else g }

  function Perform(g: Stage, a: Act): Stage {
    match a
    case Start(now) => Keep(g, StartCount(g.count, g.books, now))
    case Submit(entry, t, foreign) => Keep(g, SubmitLine(g.count, g.books, entry, t, foreign))
    case Complete => Keep(g, CompleteCount(g.count))
    case Cancel(reasonGiven) => Keep(g, CancelCount(g.count, reasonGiven))
    case Approve(o) =>
      (match ApproveCount(g.count, g.books, o)
       case Ok(done) => Stage(done.count, done.books, g.adjusted + 1)
       case Err(_) => g)
    case Trade(e) => g.(books := Exec(g.books, e))
  }

  function PerformAll(g: Stage, acts: seq<Act>): Stage {
    if acts == [] then g else Perform(PerformAll(g, acts[..|acts| - 1]), acts[|acts| - 1])
  }

  /** A count that is done has every line settled, and it has touched stock exactly when approved. */
  predicate CountOk(g: Stage) {
    && (g.count.status.Completed? ==> AllCounted(g.count.lines))
    && (g.count.approved ==> g.count.status.Completed?)
    && g.adjusted == (if g.count.approved then 1 else 0)
    && (g.count.status.InProgress? || g.count.status.Completed? ==> g.count.startedAt.Some?)
  }

  /** Same lines, on the same lots, with keys only ever added. */
  predicate SameLines(a: Count, b: Count) {
    && |b.lines| == |a.lines|
    && forall i :: 0 <= i < |a.lines| ==> a.lines[i].keys <= b.lines[i].keys && a.lines[i].lot == b.lines[i].lot
  }

  lemma PerformKeeps(g: Stage, a: Act)
    requires CountOk(g)
    ensures CountOk(Perform(g, a)) && SameLines(g.count, Perform(g, a).count)
    ensures g.count.approved ==> Perform(g, a).count == g.count
    ensures !g.count.status.CountDraft? ==>
            !Perform(g, a).count.status.CountDraft? && Perform(g, a).count.startedAt == g.count.startedAt
  {
  }

  /** However the steps of a count are ordered and repeated, it adjusts stock at most once; it does so
      only with every line counted; and from then on the record is frozen and cannot be cancelled. */
  lemma {:induction false} AdjustsOnce(g: Stage, acts: seq<Act>)
    requires CountOk(g)
    ensures CountOk(PerformAll(g, acts)) && PerformAll(g, acts).adjusted <= 1
    ensures g.count.approved ==> PerformAll(g, acts).count == g.count
    ensures SameLines(g.count, PerformAll(g, acts).count)
    ensures !g.count.status.CountDraft? ==>
              !PerformAll(g, acts).count.status.CountDraft? && PerformAll(g, acts).count.startedAt == g.count.startedAt
  {
    if acts != [] {
      hide CountOk, Perform;
      AdjustsOnce(g, acts[..|acts| - 1]);
      PerformKeeps(PerformAll(g, acts[..|acts| - 1]), acts[|acts| - 1]);
    }
  }

  /** The other answers. A DRAFT count starts with what each lot holds then as what is expected of it; one in
      progress is complete once every line stands; one that is not approved can be cancelled, with a reason;
      and one that is complete is approved once, with the differences of its lines on the lots. */
  lemma CountAnswers(c: Count, s: State, now: int, reasonGiven: bool, overrideBlocked: bool)
    ensures if !c.status.CountDraft? then StartCount(c, s, now) == Err(409)
            else
              && StartCount(c, s, now).Ok?
              && var t := StartCount(c, s, now).value;
                 && t.status.InProgress? && t.startedAt == Some(now) && t.approved == c.approved
                 && |t.lines| == |c.lines|
                 && forall i :: 0 <= i < |c.lines| && c.lines[i].lot < |s.shelf.lots| ==>
                      t.lines[i] == c.lines[i].(expected := s.shelf.lots[c.lines[i].lot].remaining)
    ensures if c.status.InProgress? && forall i :: 0 <= i < |c.lines| ==>
                 c.lines[i].status.Counted? || c.lines[i].status.Resolved?
            then CompleteCount(c) == Ok(c.(status := Completed)) else CompleteCount(c) == Err(409)
    ensures CancelCount(c, reasonGiven)
         == if !reasonGiven then Err(400)
            else if c.status.CountCancelled? || c.approved then Err(409) else Ok(c.(status := CountCancelled))
    ensures var r := ApproveCount(c, s, overrideBlocked);
            && (!c.status.Completed? || c.approved ==> r == Err(409))
            && (r.Ok? ==>
                  && r.value.count == c.(approved := true)
                  && exists lines ::
                       && ApproveVariances(s, lines, overrideBlocked) == Ok(r.value.books) && |lines| == |c.lines|
                       && forall i :: 0 <= i < |lines| ==> lines[i] == Variance(c.lines[i].lot, c.lines[i].variance))
  {
    hide ApproveVariances;
    assert |Variances(c.lines)| == |c.lines|;
  }

  /** The whole answer to a figure whose key is new. It is refused without a count in progress, without the
      line, on a line that is settled, and from the first counter of a line to be counted again if there
      is anybody else. Else the line has the figure, split into what the books said at the count, the
      difference from it, and what had moved since the count began; a recount stands, and a first figure
      stands unless the difference is one to be counted again. */
  lemma SubmitExact(c: Count, s: State, e: Entry, t: Thresholds, foreign: set<string>)
    requires e.quantity >= 0 && !KeyUsed(c, e.sub.key) && (e.sub.key.Some? ==> e.sub.key.value !in foreign)
    ensures var r := SubmitLine(c, s, e, t, foreign);
            if !c.status.InProgress? then r == Err(409)
            else if e.line >= |c.lines| || c.lines[e.line].lot >= |s.shelf.lots| then r == Err(404)
            else
              var line := c.lines[e.line];
              var again := line.status.RecountRequired?;
              if line.status.Counted? || line.status.Resolved? then r == Err(409)
              else if again && line.counter == Some(e.actor) && e.othersAvailable then r == Err(409)
              else
                && r.Ok? && e.line < |r.value.lines|
                && r.value == c.(lines := c.lines[e.line := r.value.lines[e.line]])
                && var next := r.value.lines[e.line];
                   var books := QuantityAtCount(s, line.lot, ResolveCountedAt(e.sub, c.startedAt, e.now), e.now);
                   && next.lot == line.lot && next.expected == line.expected && next.figure == e.quantity
                   && next.figure == books + next.variance && line.expected == books + next.movement
                   && next.counter == (if again then line.counter else Some(e.actor))
                   && next.keys == line.keys + (if e.sub.key.Some? then {e.sub.key.value} else {})
                   && (again ==> next.status.Resolved?)
                   && (!again ==> next.status.Counted? || next.status.RecountRequired?)
                   && (!again ==>
                         (next.status.RecountRequired? <==>
                            ExceedsRecountThreshold(books, next.variance, VarianceValue(e.unitCost, next.variance), t)))
  {
    hide QuantityAtCount, ResolveCountedAt, ExceedsRecountThreshold, VarianceValue, KeyUsed;
  }

  /** A key seen before is a replay on the line that has it, and a mistake anywhere else. */
  lemma SeenBefore(c: Count, s: State, e: Entry, t: Thresholds, foreign: set<string>)
    requires e.quantity >= 0 && e.sub.key.Some?
    ensures var r, key := SubmitLine(c, s, e, t, foreign), e.sub.key.value;
            var here := e.line < |c.lines| && key in c.lines[e.line].keys;
            var elsewhere := key in foreign || exists i :: 0 <= i < |c.lines| && key in c.lines[i].keys;
            && (here ==> r == Ok(c))
            && (!here && elsewhere ==> r == Err(409))
  {
    hide QuantityAtCount, ResolveCountedAt, ExceedsRecountThreshold, VarianceValue;
  }

  /** An accepted figure leaves its key on the line. */
  lemma AcceptedLeavesKey(c: Count, s: State, e: Entry, t: Thresholds, foreign: set<string>)
    requires SubmitLine(c, s, e, t, foreign).Ok? && e.sub.key.Some?
    ensures e.line < |SubmitLine(c, s, e, t, foreign).value.lines|
    ensures e.sub.key.value in SubmitLine(c, s, e, t, foreign).value.lines[e.line].keys
  {
  }

  /** A device may send an accepted entry again at any later time, with whatever stamps, even after the
      count was completed, approved or cancelled: it is told of success and nothing changes. */
  lemma ReplayHarmless(g: Stage, e: Entry, t: Thresholds, foreign: set<string>, acts: seq<Act>,
                       again: Entry, u: Thresholds, others: set<string>)
    requires CountOk(g) && SubmitLine(g.count, g.books, e, t, foreign).Ok? && e.sub.key.Some?
    requires again.line == e.line && again.sub.key == e.sub.key && again.quantity >= 0
    ensures var h := PerformAll(Perform(g, Submit(e, t, foreign)), acts);
            SubmitLine(h.count, h.books, again, u, others) == Ok(h.count)
  {
    AcceptedLeavesKey(g.count, g.books, e, t, foreign);
    PerformKeeps(g, Submit(e, t, foreign));
    AdjustsOnce(Perform(g, Submit(e, t, foreign)), acts);
  }

  /** A recount is another person's, unless there is nobody else. */
  lemma RecountByAnother(c: Count, s: State, e: Entry, t: Thresholds, foreign: set<string>)
    requires SubmitLine(c, s, e, t, foreign).Ok? && !KeyUsed(c, e.sub.key) && e.line < |c.lines|
    requires c.lines[e.line].status.RecountRequired?
    ensures SubmitLine(c, s, e, t, foreign).value.lines[e.line].status.Resolved?
    ensures c.lines[e.line].counter != Some(e.actor) || !e.othersAvailable
  {
  }

  // ---- A late entry, from the shelf to the approval ----

  function Trades(acts: seq<Act>): seq<Event> {
    if acts == [] then []
    else Trades(acts[..|acts| - 1]) + (if acts[|acts| - 1].Trade? then [acts[|acts| - 1].event] else [])
  }

  /** A count that has not been approved has not moved the books. */
  lemma {:induction false} OnlyTradeMoves(g: Stage, acts: seq<Act>)
    requires CountOk(g) && !PerformAll(g, acts).count.approved
    ensures PerformAll(g, acts).books == Run(g.books, Trades(acts))
  {
    if acts != [] {
      var init, last := acts[..|acts| - 1], acts[|acts| - 1];
      var mid := PerformAll(g, init);
      AdjustsOnce(g, init);
      PerformKeeps(mid, last);
      OnlyTradeMoves(g, init);
      BooksMove(mid, last);
      hide CountOk, Perform;
      if last.Trade? {
        RunAppend(g.books, Trades(init), last.event);
      } else {
        assert Trades(init) + [] == Trades(init);
      }
    }
  }

  /** One step moves the books by trade, or by an approval. */
  lemma BooksMove(g: Stage, a: Act)
    requires CountOk(g)
    ensures a.Trade? ==> Perform(g, a).books == Exec(g.books, a.event) && Perform(g, a).count == g.count
    ensures !a.Trade? && !Perform(g, a).count.approved ==> Perform(g, a).books == g.books
    ensures g.count.approved ==> Perform(g, a).count.approved
  {
    hide ApproveVariances, Exec;
  }

  predicate Stands(line: CountLine) { line.status.Counted? || line.status.Resolved? }

  /** A figure that needs no recount stands whatever follows. */
  lemma {:induction false} FigureStands(g: Stage, acts: seq<Act>, j: nat)
    requires CountOk(g) && !g.count.status.CountDraft? && j < |g.count.lines| && Stands(g.count.lines[j])
    ensures j < |PerformAll(g, acts).count.lines| && PerformAll(g, acts).count.lines[j] == g.count.lines[j]
  {
    if acts != [] {
      FigureStands(g, acts[..|acts| - 1], j);
      AdjustsOnce(g, acts[..|acts| - 1]);
      StandsOneStep(PerformAll(g, acts[..|acts| - 1]), acts[|acts| - 1], j);
    }
  }

  lemma StandsOneStep(g: Stage, a: Act, j: nat)
    requires !g.count.status.CountDraft? && j < |g.count.lines| && Stands(g.count.lines[j])
    ensures j < |Perform(g, a).count.lines| && Perform(g, a).count.lines[j] == g.count.lines[j]
  {
  }

  predicate DistinctLines(c: Count) { forall i, j :: 0 <= i < j < |c.lines| ==> c.lines[i].lot != c.lines[j].lot }

  /** What a first-time figure measures. */
  lemma MeasuredAt(c: Count, s: State, e: Entry, t: Thresholds, foreign: set<string>)
    requires SubmitLine(c, s, e, t, foreign).Ok? && !KeyUsed(c, e.sub.key)
    ensures e.quantity >= 0 && e.line < |c.lines| == |SubmitLine(c, s, e, t, foreign).value.lines|
            && c.lines[e.line].lot < |s.shelf.lots|
    ensures SubmitLine(c, s, e, t, foreign).value.lines[e.line].variance
         == e.quantity - QuantityAtCount(s, c.lines[e.line].lot, ResolveCountedAt(e.sub, c.startedAt, e.now), e.now)
  {
  }

  lemma Approved(c: Count, s: State, overrideBlocked: bool)
    requires ApproveCount(c, s, overrideBlocked).Ok?
    ensures !c.approved && Ledger.ApplyVariances(s.shelf, Variances(c.lines)).Ok?
    ensures ApproveCount(c, s, overrideBlocked).value.books
         == s.(shelf := Ledger.ApplyVariances(s.shelf, Variances(c.lines)).value)
  {
    hide Ledger.ApplyVariances, Variances;
  }

  /** Nothing is approved before its time, so the books have only traded. */
  lemma TradedOnly(g: Stage, acts: seq<Act>, a: Act, more: seq<Act>)
    requires CountOk(g) && !a.Approve? && !a.Trade? && !PerformAll(Perform(PerformAll(g, acts), a), more).count.approved
    ensures PerformAll(g, acts).books == Run(g.books, Trades(acts))
    ensures PerformAll(Perform(PerformAll(g, acts), a), more).books == Run(PerformAll(g, acts).books, Trades(more))
  {
    var mid := PerformAll(g, acts);
    SameBooks(mid, a);
    hide *;
    AdjustsOnce(g, acts);
    PerformKeeps(mid, a);
    ApprovedStays(Perform(mid, a), more);
    ApprovedNow(mid, a);
    OnlyTradeMoves(g, acts);
    OnlyTradeMoves(Perform(mid, a), more);
  }

  lemma SameBooks(g: Stage, a: Act)
    requires !a.Approve? && !a.Trade?
    ensures Perform(g, a).books == g.books
  {
  }

  lemma ApprovedNow(g: Stage, a: Act)
    requires CountOk(g)
    ensures g.count.approved ==> Perform(g, a).count.approved
  {
    PerformKeeps(g, a);
  }

  lemma ApprovedStays(g: Stage, acts: seq<Act>)
    requires CountOk(g)
    ensures g.count.approved ==> PerformAll(g, acts).count.approved
  {
    AdjustsOnce(g, acts);
  }

  /** The line as approved carries what the entry measured. */
  lemma EntryOnTheBooks(g: Stage, acts: seq<Act>, e: Entry, th: Thresholds, foreign: set<string>, more: seq<Act>)
    requires CountOk(g) && g.count.status.InProgress? && DistinctLines(g.count) && e.line < |g.count.lines|
    requires var mid := PerformAll(g, acts);
             && SubmitLine(mid.count, mid.books, e, th, foreign).Ok? && !KeyUsed(mid.count, e.sub.key)
             && Stands(SubmitLine(mid.count, mid.books, e, th, foreign).value.lines[e.line])
    ensures var mid := PerformAll(g, acts);
            var lines := Variances(PerformAll(Perform(mid, Submit(e, th, foreign)), more).count.lines);
            var l := g.count.lines[e.line].lot;
            && e.quantity >= 0 && e.line < |lines| && DistinctVariances(lines) && l < |mid.books.shelf.lots|
            && lines[e.line] == Variance(l, e.quantity - QuantityAtCount(mid.books, l,
                                              ResolveCountedAt(e.sub, g.count.startedAt, e.now), e.now))
  {
    var mid := PerformAll(g, acts);
    var done := Perform(mid, Submit(e, th, foreign));
    AdjustsOnce(g, acts);
    MeasuredAt(mid.count, mid.books, e, th, foreign);
    PerformKeeps(mid, Submit(e, th, foreign));
    hide ResolveCountedAt, QuantityAtCount, ExceedsRecountThreshold, VarianceValue;
    FigureStands(done, more, e.line);
    AdjustsOnce(done, more);
  }

  /** The shelf is counted at `t0` while the count is open; the device, whose clock is off by `skew`,
      sends the figure at `sent`; it arrives at e.now, after any trade and any other work on the count,
      and stands; the count is approved after any more of both. The shelf then holds the figure less
      what sold since `t0`, and the lot is left at that plus CountError, where the units paid in the
      transit time are all that is missed; an entry that agrees with the books moves nothing. */
  lemma LateEntry(g: Stage, acts: seq<Act>, e: Entry, th: Thresholds, foreign: set<string>, more: seq<Act>,
                  overrideBlocked: bool, t0: int, sent: int, skew: int)
    requires CountOk(g) && g.count.status.InProgress?
    requires g.count.startedAt.Some? && g.count.startedAt.value <= t0 <= sent <= e.now
    requires HoldsOk(g.books) && DistinctLines(g.count)
    requires e.line < |g.count.lines| && g.count.lines[e.line].lot < |g.books.shelf.lots|
    requires forall i :: 0 <= i < |g.books.sales| && Took(g.books.sales[i].status) ==>
               g.books.sales[i].paidAt.Some? && g.books.sales[i].paidAt.value <= t0
    requires e.sub.countedAt == Some(t0 + skew) && e.sub.sentAt == Some(sent + skew)
    requires forall i :: 0 <= i < |Trades(acts)| ==> StampedIn(Trades(acts)[i], t0, e.now)
    requires var mid := PerformAll(g, acts);
             && SubmitLine(mid.count, mid.books, e, th, foreign).Ok? && !KeyUsed(mid.count, e.sub.key)
             && Stands(SubmitLine(mid.count, mid.books, e, th, foreign).value.lines[e.line])
    requires var before := PerformAll(Perform(PerformAll(g, acts), Submit(e, th, foreign)), more);
             ApproveCount(before.count, before.books, overrideBlocked).Ok?
    ensures var before := PerformAll(Perform(PerformAll(g, acts), Submit(e, th, foreign)), more);
            var after := ApproveCount(before.count, before.books, overrideBlocked).value.books;
            var l, r := g.count.lines[e.line].lot, ResolveCountedAt(e.sub, g.count.startedAt, e.now);
            var onShelf := e.quantity - SoldBetween(g.books.sales, before.books.sales, l);
            var off := CountError(g.books, Trades(acts), Trades(more), l, t0, r);
            && t0 <= r <= t0 + (e.now - sent) && l < |after.shelf.lots| && l < |PerformAll(g, acts).books.shelf.lots|
            && after.shelf.lots[l].remaining
               == (if e.quantity == QuantityAtCount(PerformAll(g, acts).books, l, r, e.now) then onShelf + off
                   else Max0(onShelf + off))
            && (onShelf + off >= 0 ==> (after.shelf.lots[l].remaining == onShelf <==> off == 0))
  {
    hide *;
    var before := PerformAll(Perform(PerformAll(g, acts), Submit(e, th, foreign)), more);
    var l, r := g.count.lines[e.line].lot, ResolveCountedAt(e.sub, g.count.startedAt, e.now);
    assert e.sub == Submission(e.sub.key, Some(t0 + skew), Some(sent + skew));
    LateByTransit(t0, sent, skew, e.sub.key, g.count.startedAt.value, e.now);
    Approved(before.count, before.books, overrideBlocked);
    TradedOnly(g, acts, Submit(e, th, foreign), more);
    EntryOnTheBooks(g, acts, e, th, foreign, more);
    RunHolds(g.books, Trades(acts));
    CountIsRight(g.books, Trades(acts), Trades(more), l, e.quantity, t0, r, e.now, Variances(before.count.lines),
      e.line);
  }

  // ---- Several counts ----

  /** A count that may still adjust stock. */
  predicate Open(c: Count) { c.status.CountDraft? || c.status.InProgress? || (c.status.Completed? && !c.approved) }

  datatype Filed = Filed(count: Count, products: set<nat>)

  /** A product is on at most one open count. */
  predicate NoOverlap(files: seq<Filed>) {
    forall i, j :: 0 <= i < j < |files| && Open(files[i].count) && Open(files[j].count) ==>
      files[i].products !! files[j].products
  }

  function FreshLines(lots: seq<nat>): (r: seq<CountLine>)
    ensures |r| == |lots|
    ensures forall i :: 0 <= i < |r| ==> r[i] == CountLine(lots[i], Uncounted, 0, None, 0, 0, 0, {})
  {
    if lots == [] then []
    else FreshLines(lots[..|lots| - 1]) + [CountLine(lots[|lots| - 1], Uncounted, 0, None, 0, 0, 0, {})]
  }

  function InsertCount(files: seq<Filed>, lots: seq<nat>, products: set<nat>): Result<seq<Filed>> {
    if exists i :: 0 <= i < |files| && Open(files[i].count) && !(files[i].products !! products) then Err(409)
    else Ok(files + [Filed(Count(CountDraft, None, false, FreshLines(lots)), products)])
  }

  datatype Filing = Insert(lots: seq<nat>, products: set<nat>) | Work(index: nat, books: State, act: Act)

  function KeysOf(lines: seq<CountLine>): set<string> {
    if lines == [] then {} else KeysOf(lines[..|lines| - 1]) + lines[|lines| - 1].keys
  }

  /** Keys on the lines of every count but number `i`. */
  function ForeignKeys(files: seq<Filed>, i: nat): set<string> {
    if files == [] then {}
    else
      var k := |files| - 1;
      ForeignKeys(files[..k], i) + (if k == i then {} else KeysOf(files[k].count.lines))
  }

  /** An entry is looked up among the keys of all counts. */
  function Lookup(files: seq<Filed>, i: nat, a: Act): Act {
    if a.Submit? then a.(foreign := ForeignKeys(files, i)) else a
  }

  function File(files: seq<Filed>, f: Filing): seq<Filed> {
    match f
    case Insert(lots, products) => (match InsertCount(files, lots, products) case Ok(r) => r case Err(_) => files)
    case Work(i, books, a) =>
      if i < |files|
      then files[i := files[i].(count := Perform(Stage(files[i].count, books, 0), Lookup(files, i, a)).count)]
      else files
  }

  function FileAll(files: seq<Filed>, fs: seq<Filing>): seq<Filed> {
    if fs == [] then files else File(FileAll(files, fs[..|fs| - 1]), fs[|fs| - 1])
  }

  lemma NeverReopens(g: Stage, a: Act)
    ensures Open(Perform(g, a).count) ==> Open(g.count)
  {
  }

  /** Two open counts never share a product, so no difference is ever corrected twice. */
  lemma {:induction false} CountsStayApart(files: seq<Filed>, fs: seq<Filing>)
    requires NoOverlap(files)
    ensures NoOverlap(FileAll(files, fs))
  {
    if fs != [] {
      var init, f := FileAll(files, fs[..|fs| - 1]), fs[|fs| - 1];
      CountsStayApart(files, fs[..|fs| - 1]);
      if f.Work? && f.index < |init| {
        NeverReopens(Stage(init[f.index].count, f.books, 0), Lookup(init, f.index, f.act));
      }
    }
  }

  // ---- One key, one line ----

  /** No two lines, of one count or of two, carry the same key. */
  predicate KeysApart(files: seq<Filed>) {
    forall i: nat, a: nat, j: nat, b: nat ::
      i < |files| && a < |files[i].count.lines| && j < |files| && b < |files[j].count.lines| && (i != j || a != b) ==>
        files[i].count.lines[a].keys !! files[j].count.lines[b].keys
  }

  lemma {:induction false} KeysOfIs(lines: seq<CountLine>)
    ensures forall i :: 0 <= i < |lines| ==> lines[i].keys <= KeysOf(lines)
  {
    if lines != [] {
      KeysOfIs(lines[..|lines| - 1]);
      forall i | 0 <= i < |lines| ensures lines[i].keys <= KeysOf(lines) {
        if i < |lines| - 1 { assert lines[i] == lines[..|lines| - 1][i]; }
      }
    }
  }

  lemma {:induction false} ForeignKeysAre(files: seq<Filed>, i: nat)
    ensures forall j :: 0 <= j < |files| && j != i ==> KeysOf(files[j].count.lines) <= ForeignKeys(files, i)
  {
    if files != [] {
      ForeignKeysAre(files[..|files| - 1], i);
      forall j | 0 <= j < |files| && j != i ensures KeysOf(files[j].count.lines) <= ForeignKeys(files, i) {
        if j < |files| - 1 { assert files[j] == files[..|files| - 1][j]; }
      }
    }
  }

  /** A step adds a key to one line at most, and only a key that no line had. */
  lemma KeysAdded(g: Stage, a: Act)
    ensures |Perform(g, a).count.lines| == |g.count.lines|
    ensures forall i: nat :: i < |g.count.lines| ==>
              var keys, next := g.count.lines[i].keys, Perform(g, a).count.lines[i].keys;
              next == keys
              || (a.Submit? && i == a.entry.line && a.entry.sub.key.Some? && next == keys + {a.entry.sub.key.value}
                  && a.entry.sub.key.value !in a.foreign
                  && forall k :: 0 <= k < |g.count.lines| ==> a.entry.sub.key.value !in g.count.lines[k].keys)
  {
  }

  lemma LinesForeign(files: seq<Filed>, i: nat)
    ensures forall j: nat, b: nat :: j < |files| && b < |files[j].count.lines| && j != i ==>
              files[j].count.lines[b].keys <= ForeignKeys(files, i)
  {
    ForeignKeysAre(files, i);
    forall j: nat, b: nat | j < |files| && b < |files[j].count.lines| && j != i
      ensures files[j].count.lines[b].keys <= ForeignKeys(files, i)
    {
      KeysOfIs(files[j].count.lines);
    }
  }

  /** Some line carries the key. */
  predicate OnSomeLine(files: seq<Filed>, key: string) {
    exists c: nat, l: nat :: c < |files| && l < |files[c].count.lines| && key in files[c].count.lines[l].keys
  }

  /** The key a filing may add: one that no line carries. */
  function NewKey(files: seq<Filed>, f: Filing): Option<string> {
    if f.Work? && f.act.Submit? && f.act.entry.sub.key.Some? && !OnSomeLine(files, f.act.entry.sub.key.value)
    then f.act.entry.sub.key else None
  }

  function AddedAt(f: Filing): (nat, nat) { if f.Work? && f.act.Submit? then (f.index, f.act.entry.line) else (0, 0) }

  /** Keys on lines are never dropped, no line goes, and at most `added` comes, to line `at.1` of count
      `at.0` only. */
  predicate KeysGrow(a: seq<Filed>, b: seq<Filed>, added: Option<string>, at: (nat, nat)) {
    && |a| <= |b|
    && (forall i :: 0 <= i < |a| ==> |b[i].count.lines| == |a[i].count.lines|)
    && (forall i: nat, j: nat :: i < |a| && j < |a[i].count.lines| ==>
          var before, after := a[i].count.lines[j].keys, b[i].count.lines[j].keys;
          after == before || (i == at.0 && j == at.1 && added.Some? && after == before + {added.value}))
    && (forall i: nat, j: nat :: |a| <= i < |b| && j < |b[i].count.lines| ==> b[i].count.lines[j].keys == {})
  }

  lemma FileGrows(files: seq<Filed>, f: Filing)
    ensures KeysGrow(files, File(files, f), NewKey(files, f), AddedAt(f))
  {
    if f.Work? && f.index < |files| {
      var act := Lookup(files, f.index, f.act);
      KeysAdded(Stage(files[f.index].count, f.books, 0), act);
      LinesForeign(files, f.index);
      assert act.Submit? ==> act.foreign == ForeignKeys(files, f.index);
      hide Perform, ForeignKeys, Lookup;
    }
  }

  lemma GrowthApart(a: seq<Filed>, b: seq<Filed>, added: Option<string>, at: (nat, nat))
    requires KeysApart(a) && KeysGrow(a, b, added, at) && (added.Some? ==> !OnSomeLine(a, added.value))
    ensures KeysApart(b)
  {
    forall i: nat, x: nat, j: nat, y: nat
      | i < |b| && x < |b[i].count.lines| && j < |b| && y < |b[j].count.lines| && (i != j || x != y)
      ensures b[i].count.lines[x].keys !! b[j].count.lines[y].keys
    {
      if i < |a| && j < |a| {
        assert a[i].count.lines[x].keys !! a[j].count.lines[y].keys;
      }
    }
  }

  lemma FileKeepsApart(files: seq<Filed>, f: Filing)
    requires KeysApart(files)
    ensures KeysApart(File(files, f))
  {
    FileGrows(files, f);
    hide File, KeysApart, KeysGrow;
    GrowthApart(files, File(files, f), NewKey(files, f), AddedAt(f));
  }

  /** In any history of all counts, a key names one line of one count: an entry sent again is always
      recognised, and never taken for another line's. */
  lemma {:induction false} KeyNamesOneLine(files: seq<Filed>, fs: seq<Filing>)
    requires KeysApart(files)
    ensures KeysApart(FileAll(files, fs))
  {
    if fs != [] {
      KeyNamesOneLine(files, fs[..|fs| - 1]);
      FileKeepsApart(FileAll(files, fs[..|fs| - 1]), fs[|fs| - 1]);
    }
  }

  // ---- The service ----

  class CountSheet {
    const till: Till
    var count: Count

    constructor (till: Till, lots: seq<nat>)
      ensures this.till == till && count.status.CountDraft? && !count.approved && |count.lines| == |lots|
      ensures CountOk(Stage(count, till.Books(), 0))
    {
      this.till := till;
      var lines := [];
      var i := 0;
      while i < |lots|
        invariant 0 <= i <= |lots| && |lines| == i
      {
        lines := lines + [CountLine(lots[i], Uncounted, 0, None, 0, 0, 0, {})];
        i := i + 1;
      }
      count := Count(CountDraft, None, false, lines);
    }

    /** Expected quantities are frozen line by line as the count starts. */
    method Start(now: int) returns (refusal: Option<nat>)
      modifies this
      ensures match StartCount(old(count), old(till.Books()), now)
              case Ok(c) => refusal == None && count == c
              case Err(e) => refusal == Some(e) && count == old(count)
    {
      if !count.status.CountDraft? { return Some(409); }
      var lines, i := count.lines, 0;
      while i < |count.lines|
        invariant 0 <= i <= |count.lines| == |lines| && count == old(count)
        invariant forall k :: 0 <= k < i ==>
                  lines[k] == count.lines[k].(expected := OnHand(till.Books(), count.lines[k].lot))
        invariant forall k :: i <= k < |lines| ==> lines[k] == count.lines[k]
      {
        var l := lines[i].lot;
        lines := lines[i := lines[i].(expected := if l < |till.lots| then till.lots[l].remaining else 0)];
        i := i + 1;
      }
      assert lines == Freeze(till.Books(), count.lines);
      count := count.(status := InProgress, startedAt := Some(now), lines := lines);
      return None;
    }

    /** Units of the lot on sales paid since the shelf was counted. */
    method PaidSinceCount(l: nat, countedAt: int, now: int) returns (units: int)
      ensures units == PaidSince(till.sales, l, countedAt, now)
    {
      var i := 0;
      units := 0;
      assert till.sales[..0] == [];
      while i < |till.sales|
        invariant 0 <= i <= |till.sales| && units == Sum(till.sales[..i], PaidFn(l, countedAt, now))
      {
        var sale := till.sales[i];
        if sale.paidAt.Some? && countedAt < sale.paidAt.value <= now { units := units + SaleOn(sale, l); }
        assert till.sales[..i + 1][..i] == till.sales[..i];
        i := i + 1;
      }
      assert till.sales[..|till.sales|] == till.sales;
    }

    method Submit(e: Entry, t: Thresholds, foreign: set<string>) returns (refusal: Option<nat>)
      modifies this
      ensures match SubmitLine(old(count), old(till.Books()), e, t, foreign)
              case Ok(c) => refusal == None && count == c
              case Err(status) => refusal == Some(status) && count == old(count)
    {
      if e.quantity < 0 { return Some(400); }
      if KeyUsed(count, e.sub.key) {
        var replay := e.line < |count.lines| && e.sub.key.value in count.lines[e.line].keys;
        return if replay then None else Some(409);
      }
      if e.sub.key.Some? && e.sub.key.value in foreign { return Some(409); }
      if !count.status.InProgress? { return Some(409); }
      if e.line >= |count.lines| || count.lines[e.line].lot >= |till.lots| { return Some(404); }
      var line := count.lines[e.line];
      var recount := line.status.RecountRequired?;
      if !recount && !line.status.Uncounted? { return Some(409); }
      if recount && line.counter == Some(e.actor) && e.othersAvailable { return Some(409); }
      var countedAt := ResolveCountedAt(e.sub, count.startedAt, e.now);
      var atCount := till.lots[line.lot].remaining;
      if countedAt < e.now {
        var paid := PaidSinceCount(line.lot, countedAt, e.now);
        atCount := atCount + paid;
      }
      var variance := e.quantity - atCount;
      line := line.(figure := e.quantity, movement := line.expected - atCount, variance := variance,
                    keys := WithKey(line.keys, e.sub.key));
      if recount {
        line := line.(status := Resolved);
      } else {
        var far := ExceedsRecountThreshold(atCount, variance, VarianceValue(e.unitCost, variance), t);
        line := line.(status := if far then RecountRequired else Counted, counter := Some(e.actor));
      }
      count := count.(lines := count.lines[e.line := line]);
      return None;
    }

    method Complete() returns (refusal: Option<nat>)
      modifies this
      ensures match CompleteCount(old(count))
              case Ok(c) => refusal == None && count == c
              case Err(e) => refusal == Some(e) && count == old(count)
    {
      if !count.status.InProgress? { return Some(409); }
      var i := 0;
      while i < |count.lines|
        invariant 0 <= i <= |count.lines| && count == old(count)
        invariant forall k :: 0 <= k < i ==> count.lines[k].status.Counted? || count.lines[k].status.Resolved?
      {
        if !count.lines[i].status.Counted? && !count.lines[i].status.Resolved? { return Some(409); }
        i := i + 1;
      }
      count := count.(status := Completed);
      return None;
    }

    method Cancel(reasonGiven: bool) returns (refusal: Option<nat>)
      modifies this
      ensures match CancelCount(old(count), reasonGiven)
              case Ok(c) => refusal == None && count == c
              case Err(e) => refusal == Some(e) && count == old(count)
    {
      if !reasonGiven { return Some(400); }
      if count.status.CountCancelled? || count.approved { return Some(409); }
      count := count.(status := CountCancelled);
      return None;
    }

    /** The count is claimed first; a refused adjustment rolls the claim back with everything else. */
    method Approve(overrideBlocked: bool) returns (refusal: Option<nat>)
      modifies this, till
      ensures match ApproveCount(old(count), old(till.Books()), overrideBlocked)
              case Ok(done) => refusal == None && count == done.count && till.Books() == done.books
              case Err(e) => refusal == Some(e) && count == old(count) && till.Books() == old(till.Books())
    {
      if !count.status.Completed? || count.approved { return Some(409); }
      var claimed := count.(approved := true);
      var lines, i := [], 0;
      while i < |count.lines|
        invariant 0 <= i <= |count.lines| && |lines| == i && count == old(count) && till.Books() == old(till.Books())
        invariant forall k :: 0 <= k < i ==> lines[k] == Variance(count.lines[k].lot, count.lines[k].variance)
      {
        lines := lines + [Variance(count.lines[i].lot, count.lines[i].variance)];
        i := i + 1;
      }
      assert lines == Variances(count.lines);
      refusal := till.ApproveVariances(lines, overrideBlocked);
      if refusal.None? { count := claimed; }
    }
  }
}
