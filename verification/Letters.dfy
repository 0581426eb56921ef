/**
  How long a dead letter can be read back. The dead-letter stream is trimmed like the main
  one, so what it promises is about the newest `stream_max_len` letters only.
 */
module Letters {
  import opened Prelude
  import opened Streams
  import opened Pipeline
  import opened Safety

  /** Letter `i` of the history is still in the stream after one more is written with this trim. */
  ghost predicate SurvivesTrim(b: Broker, i: nat, m: Message, reason: Reason, wish: nat, maxLen: nat) {
    var c := XPark(b, m, reason, wish, maxLen);
    |c.parked| - |c.dlq| <= i
  }

  /** A retained letter survives whatever Redis trims if and only if fewer than `maxLen` letters follow it. */
  lemma SurvivesAnyTrimIff(b: Broker, i: nat, m: Message, reason: Reason, maxLen: nat)
    requires NewestKept(b.dlq, b.parked, maxLen) && |b.parked| - |b.dlq| <= i <= |b.parked|
    ensures (forall wish: nat :: SurvivesTrim(b, i, m, reason, wish, maxLen)) <==> |b.parked| + 1 - i <= maxLen
  {
    assert SurvivesTrim(b, i, m, reason, |b.dlq| + 1, maxLen) ==> |b.parked| + 1 - i <= maxLen;
  }

  // ---------------------------------------------------------- a letter that is gone

  /** `k` payloads that do not parse, each published, read and dead-lettered in turn. */
  function PoisonRun(cfg: Settings, k: nat): seq<Action> {
    if k == 0 then [EnsureGroup]
    else
      PoisonRun(cfg, k - 1) +
      [Publish("x", 0), Read("w", cfg.batchSize, true), Park("w", Message(k, "x", 1), InvalidEvent, 1)]
  }

  /** All `k` entries were parked in order, and the oldest letters beyond the bound are gone. */
  ghost predicate Poisoned(b: Broker, k: nat, maxLen: nat) {
    && b.grouped && b.floor == 0 && b.cursor == k && b.pel == map[]
    && |b.published| == k && (forall i :: 0 <= i < k ==> b.published[i] == "x")
    && |b.parked| == k && (forall i :: 0 <= i < k ==> b.parked[i] == Parked("x", InvalidEvent, i + 1, 1))
    && |b.dlq| == (if k <= maxLen then k else maxLen)
    && (forall i :: 0 <= i < |b.dlq| ==> b.dlq[i].originalId == k - |b.dlq| + i + 1)
  }

  lemma ReadPoison(b: Broker, k: nat, maxLen: nat, batch: nat)
    requires Poisoned(b, k, maxLen) && batch > 0
    ensures var c := XAdd(b, "x", 0, maxLen);
            var d := XReadGroup(c, "w", batch);
            && Message(k + 1, "x", 1) in FreshMessages(c, batch)
            && d == c.(cursor := k + 1, pel := map[k + 1 := Pending("w", 1, b.clock)], delivered := d.delivered)
            && c == b.(published := b.published + ["x"])
  {
    var c := XAdd(b, "x", 0, maxLen);
    assert Head(c) == k && ReadTo(c, batch) == k + 1;
    assert k + 1 in Range(k, k + 1);
    assert Range(k, k + 1) == {k + 1};
  }

  lemma ParkPoison(b: Broker, d: Broker, k: nat, maxLen: nat)
    requires Poisoned(b, k, maxLen)
    requires d == b.(published := b.published + ["x"], cursor := k + 1, pel := map[k + 1 := Pending("w", 1, b.clock)],
                     delivered := d.delivered)
    ensures Poisoned(XPark(d, Message(k + 1, "x", 1), InvalidEvent, 1, maxLen), k + 1, maxLen)
  {
  }

  lemma {:induction false} PoisonRunLeads(cfg: Settings, k: nat)
    requires cfg.batchSize > 0 && cfg.parse("x").None?
    ensures LegalRun(cfg, INITIAL, PoisonRun(cfg, k))
    ensures var s := Exec(cfg, INITIAL, PoisonRun(cfg, k)); Poisoned(s.broker, k, cfg.maxLen) && s.table == map[]
    decreases k
  {
    hide Exec, LegalRun, XReadGroup, XAdd, XPark, FreshMessages, Poisoned;
    if k == 0 {
      ExecStep(cfg, INITIAL, [], EnsureGroup);
      assert [] + [EnsureGroup] == PoisonRun(cfg, 0);
      NothingYet(cfg);
    } else {
      PoisonRunLeads(cfg, k - 1);
      var past := PoisonRun(cfg, k - 1);
      var publish, read := Publish("x", 0), Read("w", cfg.batchSize, true);
      var park := Park("w", Message(k, "x", 1), InvalidEvent, 1);
      var s := Exec(cfg, INITIAL, past);
      ReadPoison(s.broker, k - 1, cfg.maxLen, cfg.batchSize);
      ExecStep(cfg, INITIAL, past, publish);
      ExecStep(cfg, INITIAL, past + [publish], read);
      var t := Exec(cfg, INITIAL, past + [publish] + [read]);
      ParkPoison(s.broker, t.broker, k - 1, cfg.maxLen);
      ExecStep(cfg, INITIAL, past + [publish] + [read], park);
      assert past + [publish] + [read] + [park] == PoisonRun(cfg, k);
    }
  }

  lemma NothingYet(cfg: Settings)
    ensures LegalRun(cfg, INITIAL, []) && Exec(cfg, INITIAL, []) == INITIAL
    ensures Poisoned(EMPTY.(grouped := true), 0, cfg.maxLen)
  {
  }

  /** One letter more than the bound: entry 1 was acknowledged and not stored, and its letter is gone. */
  lemma {:induction false} OldLetterIsGone(cfg: Settings)
    requires cfg.batchSize > 0 && cfg.parse("x").None?
    ensures LegalRun(cfg, INITIAL, PoisonRun(cfg, cfg.maxLen + 1))
    ensures var s := Exec(cfg, INITIAL, PoisonRun(cfg, cfg.maxLen + 1));
            && Dead(s.broker, 1) && !Committed(cfg, s, 1) && 1 !in Unread(s.broker) && 1 !in s.broker.pel
            && forall d :: d in s.broker.dlq ==> d.originalId != 1
  {
    PoisonRunLeads(cfg, cfg.maxLen + 1);
    hide Exec, LegalRun, PoisonRun;
    var s := Exec(cfg, INITIAL, PoisonRun(cfg, cfg.maxLen + 1));
    assert s.broker.parked[0].originalId == 1;
  }
}
