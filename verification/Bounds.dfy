/** How often a blob relocates its index and how long its file gets, over whole runs. */
module Bounds {
  import opened Basics
  import opened Disk
  import opened Ledger
  import opened Transaction
  import opened Commits
  import opened Crash

  /** Where the chunk region ends, where the index lies, and how long the file is. */
  datatype Geometry = Geometry(tail: int, at: int, length: int, eof: int)

  /** The frame bytes and entry bytes one transaction adds. */
  datatype Load = Load(chunks: nat, entries: nat)

  predicate Moves(g: Geometry, w: Load) {
    w.chunks > g.at - g.tail || w.entries > g.eof - (g.at + g.length)
  }

  function Next(g: Geometry, lead: nat, trail: nat, w: Load): Geometry {
    if Moves(g, w) then
      var at := g.tail + w.chunks + lead;
      Geometry(g.tail + w.chunks, at, g.length + w.entries, Max(g.eof, at + g.length + w.entries + trail))
    else
      Geometry(g.tail + w.chunks, g.at, g.length + w.entries, g.eof)
  }

  function Reached(g: Geometry, lead: nat, trail: nat, ws: seq<Load>): Geometry {
    if ws == [] then g else Next(Reached(g, lead, trail, ws[..|ws| - 1]), lead, trail, ws[|ws| - 1])
  }

  function Moved(g: Geometry, lead: nat, trail: nat, ws: seq<Load>): nat {
    if ws == [] then 0
    else
      var before := ws[..|ws| - 1];
      Moved(g, lead, trail, before) + if Moves(Reached(g, lead, trail, before), ws[|ws| - 1]) then 1 else 0
  }

  function ChunkTotal(ws: seq<Load>): nat {
    if ws == [] then 0 else ChunkTotal(ws[..|ws| - 1]) + ws[|ws| - 1].chunks
  }

  function EntryTotal(ws: seq<Load>): nat {
    if ws == [] then 0 else EntryTotal(ws[..|ws| - 1]) + ws[|ws| - 1].entries
  }

  /** Relocations after the first, split by which gap was too small, and the bytes since the last. */
  datatype Account = Account(byChunks: nat, byEntries: nat, chunksSince: nat, entriesSince: nat)

  function NextAccount(a: Account, moved: nat, here: Geometry, w: Load): Account {
    if !Moves(here, w) then
      a.(chunksSince := a.chunksSince + w.chunks, entriesSince := a.entriesSince + w.entries)
    else if moved == 0 then Account(0, 0, 0, 0)
    else if w.chunks > here.at - here.tail then Account(a.byChunks + 1, a.byEntries, 0, 0)
    else Account(a.byChunks, a.byEntries + 1, 0, 0)
  }

  function AccountOf(g: Geometry, lead: nat, trail: nat, ws: seq<Load>): Account {
    if ws == [] then Account(0, 0, 0, 0)
    else
      var before := ws[..|ws| - 1];
      NextAccount(AccountOf(g, lead, trail, before), Moved(g, lead, trail, before), Reached(g, lead, trail, before),
                  ws[|ws| - 1])
  }

  function Times(d: nat, k: nat): nat {
    d * k
  }

  lemma TimesNext(d: nat, k: nat)
    ensures Times(d, k + 1) == Times(d, k) + d && Times(d, 0) == 0
  {
    assert d * (k + 1) == d * k + d;
  }

  /** What the accounts of a run claim: `n` is the number of relocations, `now` the layout reached. */
  ghost predicate Paid(a: Account, n: nat, now: Geometry, lead: nat, trail: nat, chunks: nat, entries: nat) {
    && n <= 1 + a.byChunks + a.byEntries
    && Times(lead + 1, a.byChunks) + a.chunksSince <= chunks
    && Times(trail + 1, a.byEntries) + a.entriesSince <= entries
    && (n > 0 ==> now.at - now.tail >= lead - a.chunksSince
                  && now.eof - (now.at + now.length) >= trail - a.entriesSince)
    && (n == 0 ==> a.byChunks == a.byEntries == 0)
  }

  lemma PaidStep(a: Account, n: nat, now: Geometry, lead: nat, trail: nat, chunks: nat, entries: nat, w: Load)
    requires Paid(a, n, now, lead, trail, chunks, entries)
    ensures Paid(NextAccount(a, n, now, w), n + if Moves(now, w) then 1 else 0, Next(now, lead, trail, w),
                 lead, trail, chunks + w.chunks, entries + w.entries)
  {
    TimesNext(lead + 1, a.byChunks);
    TimesNext(trail + 1, a.byEntries);
    TimesNext(lead + 1, 0);
    TimesNext(trail + 1, 0);
    hide Times;
  }

  /** Each relocation after the first is paid for by the bytes written since the one before. */
  lemma {:induction false} RunPaid(g: Geometry, lead: nat, trail: nat, ws: seq<Load>)
    ensures Paid(AccountOf(g, lead, trail, ws), Moved(g, lead, trail, ws), Reached(g, lead, trail, ws), lead, trail,
                 ChunkTotal(ws), EntryTotal(ws))
  {
    if ws == [] {
    } else {
      var before := ws[..|ws| - 1];
      RunPaid(g, lead, trail, before);
      PaidStep(AccountOf(g, lead, trail, before), Moved(g, lead, trail, before), Reached(g, lead, trail, before),
               lead, trail, ChunkTotal(before), EntryTotal(before), ws[|ws| - 1]);
      hide Paid, Next, Moves, NextAccount;
    }
  }

  /** How many relocations `bytes` pay for when each costs more than the padding. */
  function Quota(bytes: nat, padding: nat): nat {
    bytes / (padding + 1)
  }

  lemma QuotaBound(bytes: nat, padding: nat, k: nat)
    requires Times(padding + 1, k) <= bytes
    ensures k <= Quota(bytes, padding)
  {
    var q := Quota(bytes, padding);
    assert bytes < (padding + 1) * (q + 1);
    if k >= q + 1 {
      Product(padding + 1, q + 1, k);
      assert false;
    }
  }

  /** The file has not shrunk, it is no longer than it started or than its content and both relocation
      paddings need, and its content is what it was and what the loads added. */
  ghost predicate WithinSpace(g: Geometry, now: Geometry, lead: nat, trail: nat, ws: seq<Load>) {
    && g.eof <= now.eof <= Max(g.eof, now.tail + now.length + lead + trail)
    && now.tail == g.tail + ChunkTotal(ws) && now.length == g.length + EntryTotal(ws)
  }

  lemma {:induction false} RunSpace(g: Geometry, lead: nat, trail: nat, ws: seq<Load>)
    ensures WithinSpace(g, Reached(g, lead, trail, ws), lead, trail, ws)
  {
    if ws == [] {
    } else {
      RunSpace(g, lead, trail, ws[..|ws| - 1]);
    }
  }

  lemma MovedBound(g: Geometry, lead: nat, trail: nat, ws: seq<Load>)
    ensures Moved(g, lead, trail, ws) <= 1 + Quota(ChunkTotal(ws), lead) + Quota(EntryTotal(ws), trail)
  {
    hide Times, Quota, AccountOf, Moved, Reached, ChunkTotal, EntryTotal;
    RunPaid(g, lead, trail, ws);
    var a := AccountOf(g, lead, trail, ws);
    QuotaBound(ChunkTotal(ws), lead, a.byChunks);
    QuotaBound(EntryTotal(ws), trail, a.byEntries);
  }

  // Runs of real transactions

  /** A crash-free run: each transaction starts from the state the previous one reached. */
  ghost predicate Chain(txs: seq<Tx>) {
    && (forall i :: 0 <= i < |txs| ==> txs[i].Ready() && txs[i].keys == txs[0].keys && txs[i].cfg == txs[0].cfg)
    && forall i :: 0 <= i < |txs| - 1 ==> Follows(txs[i], txs[i + 1])
  }

  ghost predicate Follows(s: Tx, t: Tx) {
    s.Ready() && t.d == ApplyAll(s.d, s.Script()) && t.h == s.After()
  }

  ghost function GeometryOf(d: DiskState, h: History): Geometry
    requires h.commits != []
  {
    Geometry(Tail(h.records), Last(h).offset, Last(h).length, |d.bytes|)
  }

  function LoadOf(req: Request): Load {
    Load(ChunkBytes(req.chunks), EntryBytes(req))
  }

  function Loads(txs: seq<Tx>): seq<Load> {
    seq(|txs|, i requires 0 <= i < |txs| => LoadOf(txs[i].req))
  }

  ghost function Relocations(txs: seq<Tx>): nat {
    if txs == [] then 0
    else Relocations(txs[..|txs| - 1]) +
         var t := txs[|txs| - 1]; if t.h.commits != [] && t.Relocates() then 1 else 0
  }

  /** The layout a transaction reaches depends only on the layout it starts from and its sizes. */
  lemma LayoutStep(t: Tx)
    requires t.Ready()
    ensures t.After().commits != []
    ensures t.Relocates() == Moves(GeometryOf(t.d, t.h), LoadOf(t.req))
    ensures GeometryOf(ApplyAll(t.d, t.Script()), t.After())
         == Next(GeometryOf(t.d, t.h), t.cfg.relocationLeadingPadding, t.cfg.relocationTrailingPadding, LoadOf(t.req))
  {
    hide HistoryOk, SlotOk, FramesOn, RegionsIn, Placed, ApplyAll, Tx.Body, Cipher;
    RecordsPlaced(t);
    NewIndexLength(t);
    AfterOk(t);
    FinalState(t);
    BodyStages(t);
  }

  ghost function Final(txs: seq<Tx>): (DiskState, History)
    requires txs != [] && txs[|txs| - 1].Ready()
  {
    var t := txs[|txs| - 1];
    (ApplyAll(t.d, t.Script()), t.After())
  }

  ghost function Lead(txs: seq<Tx>): nat
    requires txs != []
  {
    txs[0].cfg.relocationLeadingPadding
  }

  ghost function Trail(txs: seq<Tx>): nat
    requires txs != []
  {
    txs[0].cfg.relocationTrailingPadding
  }

  /** The layouts a run starts from and ends in. */
  ghost function FirstLayout(txs: seq<Tx>): Geometry
    requires txs != [] && txs[0].h.commits != []
  {
    GeometryOf(txs[0].d, txs[0].h)
  }

  ghost function FinalLayout(txs: seq<Tx>): Geometry
    requires txs != [] && txs[|txs| - 1].Ready()
  {
    LayoutStep(txs[|txs| - 1]);
    GeometryOf(Final(txs).0, Final(txs).1)
  }

  lemma ChainEnds(txs: seq<Tx>)
    requires Chain(txs) && txs != []
    ensures txs[0].Ready() && txs[0].h.commits != [] && txs[|txs| - 1].Ready()
  {
    hide Inv, Tx.Fits;
  }

  lemma ChainShort(txs: seq<Tx>)
    requires Chain(txs) && |txs| == 1
    ensures txs[0].h.commits != [] && txs[0].Ready()
    ensures FinalLayout(txs) == Next(FirstLayout(txs), Lead(txs), Trail(txs), LoadOf(txs[0].req))
    ensures Relocations(txs) == if Moves(FirstLayout(txs), LoadOf(txs[0].req)) then 1 else 0
  {
    ChainEnds(txs);
    LayoutStep(txs[0]);
    hide Tx.Ready, Tx.Script, Tx.After, Tx.Relocates, Next, Moves, GeometryOf, LoadOf, ApplyAll, Inv, Chain;
    assert Relocations(txs[..0]) == 0;
  }

  lemma ChainPrefix(txs: seq<Tx>)
    requires Chain(txs) && |txs| > 1
    ensures Chain(txs[..|txs| - 1])
    ensures Follows(txs[|txs| - 2], txs[|txs| - 1]) && txs[|txs| - 1].cfg == txs[0].cfg
  {
    hide Tx.Ready, Follows;
    assert Follows(txs[|txs| - 2], txs[|txs| - 2 + 1]);
  }

  lemma ChainLast(txs: seq<Tx>)
    requires Chain(txs) && |txs| > 1
    ensures txs[0].h.commits != [] && txs[|txs| - 1].Ready()
    ensures var before, t := txs[..|txs| - 1], txs[|txs| - 1];
      && Chain(before) && before[0].h.commits != [] && before[|before| - 1].Ready()
      && FirstLayout(before) == FirstLayout(txs) && Lead(before) == Lead(txs) && Trail(before) == Trail(txs)
      && FinalLayout(txs) == Next(FinalLayout(before), Lead(txs), Trail(txs), LoadOf(t.req))
      && Relocations(txs) == Relocations(before) + if Moves(FinalLayout(before), LoadOf(t.req)) then 1 else 0
  {
    ChainEnds(txs);
    ChainPrefix(txs);
    ChainEnds(txs[..|txs| - 1]);
    LayoutStep(txs[|txs| - 1]);
    LayoutStep(txs[|txs| - 2]);
    hide Tx.Ready, Tx.Script, Tx.After, Tx.Relocates, Next, Moves, GeometryOf, LoadOf, ApplyAll, Inv, Chain;
  }

  lemma LoadsLast(txs: seq<Tx>)
    requires txs != []
    ensures Loads(txs) == Loads(txs[..|txs| - 1]) + [LoadOf(txs[|txs| - 1].req)]
  {
  }

  lemma RunSnoc(g: Geometry, lead: nat, trail: nat, ws: seq<Load>, w: Load)
    ensures Reached(g, lead, trail, ws + [w]) == Next(Reached(g, lead, trail, ws), lead, trail, w)
    ensures Moved(g, lead, trail, ws + [w])
         == Moved(g, lead, trail, ws) + if Moves(Reached(g, lead, trail, ws), w) then 1 else 0
  {
    assert (ws + [w])[..|ws|] == ws;
  }

  /** A run of transactions is a run of layouts. */
  lemma {:induction false} ChainLayout(txs: seq<Tx>)
    requires Chain(txs) && txs != []
    ensures txs[0].h.commits != [] && txs[|txs| - 1].Ready()
    ensures FinalLayout(txs) == Reached(FirstLayout(txs), Lead(txs), Trail(txs), Loads(txs))
    ensures Relocations(txs) == Moved(FirstLayout(txs), Lead(txs), Trail(txs), Loads(txs))
  {
    hide *;
    var before, t := txs[..|txs| - 1], txs[|txs| - 1];
    ChainEnds(txs);
    LoadsLast(txs);
    var g, lead, trail := FirstLayout(txs), Lead(txs), Trail(txs);
    RunSnoc(g, lead, trail, Loads(before), LoadOf(t.req));
    if |txs| == 1 {
      ChainShort(txs);
      NoLoads(g, lead, trail);
    } else {
      ChainLast(txs);
      ChainLayout(before);
    }
  }

  lemma NoLoads(g: Geometry, lead: nat, trail: nat)
    ensures Loads([]) == [] && Reached(g, lead, trail, []) == g && Moved(g, lead, trail, []) == 0
  {
  }

  /** Amortised relocation bound: apart from the first, each relocation is paid for by more chunk
      bytes than the leading padding or more entry bytes than the trailing padding. */
  lemma RelocationBound(txs: seq<Tx>)
    requires Chain(txs) && txs != []
    ensures Relocations(txs) <= 1 + Quota(ChunkTotal(Loads(txs)), Lead(txs)) + Quota(EntryTotal(Loads(txs)), Trail(txs))
  {
    hide *;
    ChainLayout(txs);
    MovedBound(FirstLayout(txs), Lead(txs), Trail(txs), Loads(txs));
  }

  /** Space bound: a run ends between transactions, and its file is never longer than it started, or
      than the chunks, the index and both relocation paddings need. */
  lemma SpaceBound(txs: seq<Tx>)
    requires Chain(txs) && txs != []
    ensures txs[0].h.commits != [] && txs[|txs| - 1].Ready()
    ensures Inv(txs[|txs| - 1].keys, Final(txs).0, Final(txs).1)
    ensures WithinSpace(FirstLayout(txs), FinalLayout(txs), Lead(txs), Trail(txs), Loads(txs))
  {
    hide Inv, Chain, Tx.Ready, Tx.Script, Tx.After, ApplyAll, FirstLayout, FinalLayout, Reached, Loads, Relocations,
         Moved;
    ChainLayout(txs);
    CommitReached(txs[|txs| - 1]);
    RunSpace(FirstLayout(txs), Lead(txs), Trail(txs), Loads(txs));
  }
}
