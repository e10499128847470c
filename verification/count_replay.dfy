/** Count entries on their way to the server, over a network that loses requests and responses and a device
    that walks its queue again and again, perhaps in several tabs at once. Each entry reaches its line once. */
module CountReplay {
  import opened Outcome
  import opened Ledger
  import opened CountFigures
  import opened StockCounts
  import CountSync

  /** An entry as the counter confirmed it: its key, and the line of which count. */
  datatype Confirmed = Confirmed(key: string, count: nat, line: nat)

  /** What one attempt carries beside the entry, and what the server knows when it arrives. */
  datatype Attempt = Attempt(entry: StockCounts.Entry, thresholds: Thresholds, books: State)

  /** What came of one post: the server's verdict, or nothing that reached the device. */
  datatype Outstanding = Outstanding(entry: nat, answer: CountSync.Answer)

  /** `entries` are all entries ever confirmed; `queue` those on the device, and whether they are set
      aside; `dismissed` those a counter removed by hand; `awaited` the posts whose outcome the device has
      yet to act on; `changes` how many posts of each entry changed anything on the server. */
  datatype World = World(entries: seq<Confirmed>, queue: map<nat, bool>, dismissed: set<nat>,
                         awaited: seq<Outstanding>, changes: seq<nat>, files: seq<Filed>)

  datatype Act =
    | Confirm(entry: Confirmed)
    | Post(i: nat, arrives: bool, attempt: Attempt)
    | Hear(n: nat, heard: bool)
    | Dismiss(i: nat)
    | Elsewhere(filing: Filing)

  predicate Recorded(files: seq<Filed>, e: Confirmed) {
    e.count < |files| && e.line < |files[e.count].count.lines| && e.key in files[e.count].count.lines[e.line].keys
  }

  predicate Minted(entries: seq<Confirmed>, key: string) {
    exists i :: 0 <= i < |entries| && entries[i].key == key
  }

  /** Keys are minted fresh, and nobody else submits under a key of this device. */
  predicate Enabled(w: World, a: Act) {
    match a
    case Confirm(e) => !Minted(w.entries, e.key) && !OnSomeLine(w.files, e.key)
    case Post(i, _, attempt) =>
      i < |w.entries| && attempt.entry.line == w.entries[i].line && attempt.entry.sub.key == Some(w.entries[i].key)
      && attempt.entry.quantity >= 0
    case Hear(n, _) => n < |w.awaited|
    case Dismiss(i) => i in w.queue && w.queue[i]
    case Elsewhere(f) =>
      f.Work? && f.act.Submit? && f.act.entry.sub.key.Some? ==> !Minted(w.entries, f.act.entry.sub.key.value)
  }

  function Filling(c: nat, t: Attempt): Filing { Work(c, t.books, Submit(t.entry, t.thresholds, {})) }

  function Verdict(files: seq<Filed>, c: nat, t: Attempt): CountSync.Answer {
    if c >= |files| then CountSync.Response(404)
    else match SubmitLine(files[c].count, t.books, t.entry, t.thresholds, ForeignKeys(files, c))
      case Ok(_) => CountSync.Response(200)
      case Err(status) => CountSync.Response(status)
  }

  /** The device acts on what it heard as the walk does: success removes the row, a refusal sets it aside,
      anything else leaves it to be sent again. The last two put the row back if another tab removed it. */
  function HeardOf(queue: map<nat, bool>, i: nat, answer: CountSync.Answer): map<nat, bool> {
    if CountSync.Success(answer) then queue - {i} else queue[i := CountSync.IsRefusal(answer)]
  }

  /** That is what the walk does with a row it reaches: what it keeps of it, and where it stops. */
  lemma HeardAsWalked(queue: map<nat, bool>, i: nat, key: string, answer: CountSync.Answer)
    requires i in queue && !queue[i]
    ensures var e, after := CountSync.Entry(key, false), HeardOf(queue, i, answer);
            if CountSync.StallAt([e], [answer]) == 0 then after == queue
            else CountSync.Kept(e, answer) == if i in after then [CountSync.Entry(key, after[i])] else []
  {
    assert [answer][0] == answer;
  }

  function Next(w: World, a: Act): World
    requires |w.changes| == |w.entries| && Enabled(w, a)
    ensures |Next(w, a).changes| == |Next(w, a).entries|
  {
    match a
    case Confirm(e) =>
      w.(entries := w.entries + [e], queue := w.queue[|w.entries| := false], changes := w.changes + [0])
    case Post(i, arrives, t) =>
      var c := w.entries[i].count;
      var files := if arrives then File(w.files, Filling(c, t)) else w.files;
      var answer := if arrives then Verdict(w.files, c, t) else CountSync.NoResponse;
      w.(files := files, awaited := w.awaited + [Outstanding(i, answer)],
         changes := if files == w.files then w.changes else w.changes[i := w.changes[i] + 1])
    case Hear(n, heard) =>
      var o := w.awaited[n];
      w.(awaited := w.awaited[..n] + w.awaited[n + 1..],
         queue := HeardOf(w.queue, o.entry, if heard then o.answer else CountSync.NoResponse))
    case Dismiss(i) => w.(queue := w.queue - {i}, dismissed := w.dismissed + {i})
    case Elsewhere(f) => w.(files := File(w.files, f))
  }

  // ---- The invariant ----

  /** A line that carries the entry's key is the entry's own. */
  predicate OwnLineOnly(files: seq<Filed>, e: Confirmed) {
    forall c: nat, l: nat :: c < |files| && l < |files[c].count.lines| && e.key in files[c].count.lines[l].keys ==>
      c == e.count && l == e.line
  }

  /** Where the entry is, and what it has done. */
  predicate EntryOk(w: World, i: nat)
    requires i < |w.entries| == |w.changes|
  {
    && OwnLineOnly(w.files, w.entries[i])
    && (i in w.queue || i in w.dismissed || Recorded(w.files, w.entries[i]))
    && w.changes[i] == (if Recorded(w.files, w.entries[i]) then 1 else 0)
  }

  predicate WorldOk(w: World) {
    && |w.changes| == |w.entries| && KeysApart(w.files)
    && (forall i, j :: 0 <= i < j < |w.entries| ==> w.entries[i].key != w.entries[j].key)
    && (forall i: nat :: i < |w.entries| ==> EntryOk(w, i))
    && (forall n :: 0 <= n < |w.awaited| ==>
          w.awaited[n].entry < |w.entries|
          && (CountSync.Success(w.awaited[n].answer) ==> Recorded(w.files, w.entries[w.awaited[n].entry])))
  }

  /** A post that arrives: a known key changes nothing and is acknowledged; an unknown one is recorded
      exactly when it is acknowledged, and otherwise nothing changes. */
  lemma PostEffect(files: seq<Filed>, e: Confirmed, t: Attempt)
    requires KeysApart(files) && OwnLineOnly(files, e) && e.count < |files|
    requires t.entry.line == e.line && t.entry.sub.key == Some(e.key) && t.entry.quantity >= 0
    ensures var after := File(files, Filling(e.count, t));
            && (Recorded(files, e) ==> after == files && Verdict(files, e.count, t) == CountSync.Response(200))
            && (CountSync.Success(Verdict(files, e.count, t)) <==> Recorded(after, e))
            && (!Recorded(files, e) ==> (after != files <==> Recorded(after, e)))
  {
    var count := files[e.count].count;
    var submit := Submit(t.entry, t.thresholds, ForeignKeys(files, e.count));
    assert Lookup(files, e.count, Submit(t.entry, t.thresholds, {})) == submit;
    var r := SubmitLine(count, t.books, t.entry, t.thresholds, ForeignKeys(files, e.count));
    var after := File(files, Filling(e.count, t));
    Verdicts(count, t, ForeignKeys(files, e.count));
    assert Perform(Stage(count, t.books, 0), submit).count == if r.Ok? then r.value else count;
    hide SubmitLine, Perform, ForeignKeys;
    assert after == files[e.count := files[e.count].(count := if r.Ok? then r.value else count)];
    if Recorded(files, e) {
      assert KeyUsed(count, Some(e.key));
      assert after == files;
    } else {
      assert !KeyUsed(count, Some(e.key));
    }
  }

  /** What the server says of a post and what it does with it. */
  lemma Verdicts(c: Count, t: Attempt, foreign: set<string>)
    requires t.entry.sub.key.Some? && t.entry.quantity >= 0
    ensures var r, key := SubmitLine(c, t.books, t.entry, t.thresholds, foreign), t.entry.sub.key.value;
            && (t.entry.line < |c.lines| && key in c.lines[t.entry.line].keys ==> r == Ok(c))
            && (r.Err? ==> 400 <= r.status < 500)
            && (r.Ok? && !KeyUsed(c, Some(key)) ==>
                  t.entry.line < |r.value.lines| && key in r.value.lines[t.entry.line].keys && r.value != c)
  {
    var r, key := SubmitLine(c, t.books, t.entry, t.thresholds, foreign), t.entry.sub.key.value;
    if r.Ok? && !KeyUsed(c, Some(key)) {
      assert key in r.value.lines[t.entry.line].keys && key !in c.lines[t.entry.line].keys;
    }
  }

  /** What is recorded stays recorded, and other entries' keys stay where they are. */
  lemma GrowthKeeps(a: seq<Filed>, b: seq<Filed>, added: Option<string>, at: (nat, nat), e: Confirmed)
    requires KeysGrow(a, b, added, at) && OwnLineOnly(a, e)
    ensures Recorded(a, e) ==> Recorded(b, e)
    ensures added != Some(e.key) ==> OwnLineOnly(b, e) && (Recorded(b, e) ==> Recorded(a, e))
    ensures at == (e.count, e.line) ==> OwnLineOnly(b, e)
  {
    forall i: nat, j: nat | i < |b| && j < |b[i].count.lines| && e.key in b[i].count.lines[j].keys
      ensures i < |a| && j < |a[i].count.lines|
      ensures e.key in a[i].count.lines[j].keys || (at == (i, j) && added == Some(e.key))
    {
    }
  }

  /** Server work that leaves every entry of the device recorded or not as it was. */
  lemma ServerKeeps(w: World, files: seq<Filed>, added: Option<string>, at: (nat, nat))
    requires WorldOk(w) && KeysApart(files) && KeysGrow(w.files, files, added, at)
    requires added.Some? ==> !Minted(w.entries, added.value)
    ensures WorldOk(w.(files := files))
  {
    var t := w.(files := files);
    forall i: nat | i < |w.entries|
      ensures EntryOk(t, i) && (Recorded(w.files, w.entries[i]) ==> Recorded(files, w.entries[i]))
    {
      assert EntryOk(w, i);
      GrowthKeeps(w.files, files, added, at, w.entries[i]);
    }
  }

  lemma ElsewhereKeeps(w: World, f: Filing)
    requires WorldOk(w) && Enabled(w, Elsewhere(f))
    ensures WorldOk(Next(w, Elsewhere(f)))
  {
    FileGrows(w.files, f);
    FileKeepsApart(w.files, f);
    hide File, KeysGrow, KeysApart, WorldOk;
    ServerKeeps(w, File(w.files, f), NewKey(w.files, f), AddedAt(f));
  }

  lemma ConfirmKeeps(w: World, e: Confirmed)
    requires WorldOk(w) && Enabled(w, Confirm(e))
    ensures WorldOk(Next(w, Confirm(e)))
  {
    var t := Next(w, Confirm(e));
    hide KeysApart;
    forall i: nat | i < |t.entries| ensures EntryOk(t, i) {
      if i < |w.entries| {
        assert EntryOk(w, i);
      } else {
        assert OwnLineOnly(w.files, e) && !Recorded(w.files, e);
      }
    }
    forall i, j | 0 <= i < j < |t.entries| ensures t.entries[i].key != t.entries[j].key {
      if j == |w.entries| { assert w.entries[i].key != e.key; }
    }
  }

  /** The device forgets or sets aside a row only where that loses nothing. */
  lemma HearKeeps(w: World, n: nat, heard: bool)
    requires WorldOk(w) && Enabled(w, Hear(n, heard))
    ensures WorldOk(Next(w, Hear(n, heard)))
  {
    var t := Next(w, Hear(n, heard));
    hide KeysApart, OwnLineOnly;
    forall i: nat | i < |t.entries| ensures EntryOk(t, i) { assert EntryOk(w, i); }
    forall m | 0 <= m < |t.awaited| ensures t.awaited[m] in w.awaited {
      assert t.awaited[m] == w.awaited[if m < n then m else m + 1];
    }
  }

  lemma DismissKeeps(w: World, i: nat)
    requires WorldOk(w) && Enabled(w, Dismiss(i))
    ensures WorldOk(Next(w, Dismiss(i)))
  {
    var t := Next(w, Dismiss(i));
    hide KeysApart, OwnLineOnly;
    forall j: nat | j < |t.entries| ensures EntryOk(t, j) { assert EntryOk(w, j); }
  }

  /** A post that does not arrive, or finds no such count. */
  lemma UnansweredKeeps(w: World, o: Outstanding)
    requires WorldOk(w) && o.entry < |w.entries| && !CountSync.Success(o.answer)
    ensures WorldOk(w.(awaited := w.awaited + [o]))
  {
    var t := w.(awaited := w.awaited + [o]);
    hide KeysApart, OwnLineOnly;
    forall j: nat | j < |t.entries| ensures EntryOk(t, j) { assert EntryOk(w, j); }
  }

  lemma ArrivalKeeps(w: World, i: nat, attempt: Attempt)
    requires WorldOk(w) && Enabled(w, Post(i, true, attempt)) && w.entries[i].count < |w.files|
    ensures WorldOk(Next(w, Post(i, true, attempt)))
  {
    var e := w.entries[i];
    var f := Filling(e.count, attempt);
    var t := Next(w, Post(i, true, attempt));
    assert EntryOk(w, i);
    FileGrows(w.files, f);
    FileKeepsApart(w.files, f);
    PostEffect(w.files, e, attempt);
    hide File, KeysGrow, KeysApart, Verdict, OwnLineOnly, Recorded;
    forall j: nat | j < |t.entries|
      ensures EntryOk(t, j) && (Recorded(w.files, w.entries[j]) ==> Recorded(t.files, w.entries[j]))
    {
      assert EntryOk(w, j);
      assert j != i ==> w.entries[j].key != e.key;
      GrowthKeeps(w.files, t.files, NewKey(w.files, f), (e.count, e.line), w.entries[j]);
    }
  }

  lemma StepKeeps(w: World, a: Act)
    requires WorldOk(w) && Enabled(w, a)
    ensures WorldOk(Next(w, a))
  {
    match a
    case Confirm(e) => ConfirmKeeps(w, e);
    case Post(i, arrives, t) =>
      if arrives && w.entries[i].count < |w.files| {
        ArrivalKeeps(w, i, t);
      } else {
        UnansweredKeeps(w, Outstanding(i, if arrives then CountSync.Response(404) else CountSync.NoResponse));
      }
    case Hear(n, heard) => HearKeeps(w, n, heard);
    case Dismiss(i) => DismissKeeps(w, i);
    case Elsewhere(f) => ElsewhereKeeps(w, f);
  }

  // ---- Runs ----

  /** A run, and that each step of it can happen where it does. */
  predicate Runs(w: World, acts: seq<Act>)
    requires |w.changes| == |w.entries|
    decreases |acts|
  {
    acts == [] || (Enabled(w, acts[0]) && Runs(Next(w, acts[0]), acts[1..]))
  }

  function End(w: World, acts: seq<Act>): World
    requires |w.changes| == |w.entries| && Runs(w, acts)
    decreases |acts|
  {
    if acts == [] then w else End(Next(w, acts[0]), acts[1..])
  }

  /** Exactly once, whatever requests and responses are lost, however often and in whatever order the
      queue is walked, by however many tabs, and whatever becomes of the counts meanwhile: an entry is on
      its line, or still on the device, or was dismissed by hand; it is on no line but its own; and it has
      changed the count once if it is recorded and not at all if it is not. */
  lemma {:induction false} CountsSafe(w: World, acts: seq<Act>)
    requires WorldOk(w) && Runs(w, acts)
    ensures WorldOk(End(w, acts))
    decreases |acts|
  {
    if acts != [] {
      hide WorldOk, Enabled, Next;
      StepKeeps(w, acts[0]);
      CountsSafe(Next(w, acts[0]), acts[1..]);
    }
  }

  /** From an empty queue. */
  lemma ExactlyOnce(files: seq<Filed>, acts: seq<Act>, i: nat)
    requires KeysApart(files) && Runs(World([], map[], {}, [], [], files), acts)
    requires i < |End(World([], map[], {}, [], [], files), acts).entries|
    ensures var w := End(World([], map[], {}, [], [], files), acts);
            && |w.changes| == |w.entries| && OwnLineOnly(w.files, w.entries[i])
            && (i in w.queue || i in w.dismissed || w.changes[i] == 1)
            && (w.changes[i] == if Recorded(w.files, w.entries[i]) then 1 else 0)
  {
    CountsSafe(World([], map[], {}, [], [], files), acts);
    assert EntryOk(End(World([], map[], {}, [], [], files), acts), i);
  }

  /** Posting a recorded entry again, at any time, is acknowledged and changes nothing. */
  lemma RepostChangesNothing(w: World, i: nat, attempt: Attempt)
    requires WorldOk(w) && Enabled(w, Post(i, true, attempt)) && Recorded(w.files, w.entries[i])
    ensures Next(w, Post(i, true, attempt)) == w.(awaited := w.awaited + [Outstanding(i, CountSync.Response(200))])
  {
    assert EntryOk(w, i);
    hide OwnLineOnly, KeysApart;
    PostEffect(w.files, w.entries[i], attempt);
  }
}
