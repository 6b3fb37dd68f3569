/** Laws of every run of the cFS application, whatever the messages and whatever the hardware does. */
module CfsLaws {
  import opened Bytes
  import opened Driver
  import opened CfsApp

  // ---------- the kinds of steps ----------

  predicate IsHkRequest(i: Input) { i.Message? && i.m.id == REQ_HK_MID && i.m.code == REQ_HK_TLM }

  predicate IsDataRequest(i: Input) { i.Message? && i.m.id == REQ_HK_MID && i.m.code == REQ_DATA_TLM }

  lemma HkCase(a: App, i: Input)
    requires IsHkRequest(i)
    ensures InputStep(a, i) == HousekeepingStep(a, i.env.hk)
  {
  }

  lemma DataCase(a: App, i: Input)
    requires IsDataRequest(i)
    ensures InputStep(a, i) == DataStep(a, i.env.data)
  {
  }

  /** All other inputs leave the telemetry alone, and cause at most one event. */
  lemma OtherCase(a: App, i: Input)
    requires !IsHkRequest(i) && !IsDataRequest(i)
    ensures var (b, now) := InputStep(a, i);
            && b.hk == a.hk && b.data == a.data
            && (now == [] || (|now| == 1 && (now[0].Init? || now[0].Close? || now[0].Sim?)))
  {
    hide DecodeHk, Overwrite;
  }

  // ---------- dispatch ----------

  /** A uint8 counter, one further. */
  function Next(b: Byte): Byte { if b == 255 then 0 else b + 1 }

  /**
   The message and command identifiers by number, and what each message does to the four counters and
   to the flag: every message that is not listed is one command error.
   */
  lemma DispatchByNumber(s: System, m: Msg, l: Links)
    ensures var (t, now) := SystemStep(s, Receive(m, l));
            var (a, b) := (s.app, t.app);
            && (m.id == 0x1926 && m.code == 0 ==>
                  && b.cmd == a.cmd && b.cmdErr == a.cmdErr && b.enabled == a.enabled
                  && |now| > 0 && now[|now| - 1].HkOut?)
            && (m.id == 0x1926 && m.code == 1 ==>
                  && b.cmd == a.cmd && b.cmdErr == a.cmdErr && b.enabled == a.enabled
                  && (|now| > 0 <==> a.enabled) && (|now| > 0 ==> now[0].Exchange? && now[0].code == 2))
            && (!(m.id == 0x1926 && m.code <= 1) ==>
                  && t.slave == s.slave
                  && if m.id == 0x1925 && m.code == 0 && m.length == 8 then
                       b == a.(cmd := Next(a.cmd)) && now == []
                     else if m.id == 0x1925 && m.code == 1 && m.length == 8 then
                       b == a.(cmd := 0, cmdErr := 0, dev := 0, devErr := 0) && now == []
                     else if m.id == 0x1925 && m.code == 2 && m.length == 8 && !a.enabled then
                       && now == [Init(l.initOk)]
                       && b == if l.initOk then a.(cmd := Next(a.cmd), dev := Next(a.dev), enabled := true)
                               else a.(cmd := Next(a.cmd), devErr := Next(a.devErr))
                     else if m.id == 0x1925 && m.code == 3 && m.length == 8 && a.enabled then
                       && now == [Close(l.closeOk)]
                       && b == if l.closeOk then a.(cmd := Next(a.cmd), dev := Next(a.dev), enabled := false)
                               else a.(cmd := Next(a.cmd), devErr := Next(a.devErr))
                     else b == a.(cmdErr := Next(a.cmdErr)) && now == [])
  {
    hide Transact, RequestThree, DecodeHk, Overwrite;
  }

  // ---------- bus discipline ----------

  function Weight(e: Event): int {
    if e == Init(true) then 1 else if e == Close(true) then -1 else 0
  }

  /** Successful inits less successful closes. */
  function Balance(tr: seq<Event>): int
    decreases |tr|
  {
    if |tr| == 0 then 0 else Balance(tr[..|tr| - 1]) + Weight(tr[|tr| - 1])
  }

  lemma {:induction false} BalanceAdds(s: seq<Event>, t: seq<Event>)
    ensures Balance(s + t) == Balance(s) + Balance(t)
    decreases |t|
  {
    if |t| == 0 {
      assert s + t == s;
    } else {
      assert (s + t)[..|s + t| - 1] == s + t[..|t| - 1];
      BalanceAdds(s, t[..|t| - 1]);
    }
  }

  lemma {:induction false} QuietBalance(t: seq<Event>)
    requires forall i :: 0 <= i < |t| ==> Weight(t[i]) == 0
    ensures Balance(t) == 0
    decreases |t|
  {
    if |t| > 0 {
      QuietBalance(t[..|t| - 1]);
    }
  }

  lemma BalanceOfOne(e: Event)
    ensures Balance([e]) == Weight(e)
  {
    assert [e][..0] == [];
  }

  /** What may happen when `before` has happened: init only while closed, all else only while open. */
  predicate InOrder(before: seq<Event>, e: Event) {
    && (e.Init? ==> Balance(before) == 0)
    && (e.Close? || e.Exchange? ==> Balance(before) == 1)
  }

  predicate Disciplined(tr: seq<Event>) {
    forall i :: 0 <= i < |tr| ==> InOrder(tr[..i], tr[i])
  }

  /** The events t may follow the record s. */
  predicate MayFollow(s: seq<Event>, t: seq<Event>) {
    forall j :: 0 <= j < |t| ==> InOrder(s + t[..j], t[j])
  }

  lemma DisciplinedAppends(s: seq<Event>, t: seq<Event>)
    ensures Disciplined(s + t) <==> Disciplined(s) && MayFollow(s, t)
  {
    hide InOrder;
    var all := s + t;
    forall i | 0 <= i < |s|
      ensures InOrder(all[..i], all[i]) <==> InOrder(s[..i], s[i])
    {
      assert all[..i] == s[..i];
    }
    forall j | 0 <= j < |t|
      ensures InOrder(all[..|s| + j], all[|s| + j]) <==> InOrder(s + t[..j], t[j])
    {
      assert all[..|s| + j] == s + t[..j];
    }
  }

  /** Events that fit a step from open to after: each in its place, and no switch but a single one. */
  predicate OnBus(open: bool, after: bool, now: seq<Event>) {
    && (forall j :: 0 <= j < |now| && now[j].Init? ==> !open)
    && (forall j :: 0 <= j < |now| && (now[j].Close? || now[j].Exchange?) ==> open)
    && (|now| != 1 ==> after == open && forall j :: 0 <= j < |now| ==> Weight(now[j]) == 0)
    && (|now| == 1 ==> Weight(now[0]) == (if after then 1 else 0) - (if open then 1 else 0))
  }

  lemma StepOnBus(a: App, i: Input)
    ensures var (b, now) := InputStep(a, i); OnBus(a.enabled, b.enabled, now)
  {
    hide DecodeHk, Overwrite;
  }

  /** Such events keep the discipline, after a record that agrees with the state. */
  lemma KeepsOrder(open: bool, after: bool, before: seq<Event>, now: seq<Event>)
    requires Balance(before) == (if open then 1 else 0) && OnBus(open, after, now)
    ensures MayFollow(before, now) && Balance(before + now) == if after then 1 else 0
  {
    hide Balance;
    BalanceAdds(before, now);
    if |now| == 1 {
      assert before + now[..0] == before;
      BalanceOfOne(now[0]);
      assert now == [now[0]];
    } else {
      QuietBalance(now);
      forall j | 0 <= j < |now|
        ensures InOrder(before + now[..j], now[j])
      {
        BalanceAdds(before, now[..j]);
        QuietBalance(now[..j]);
      }
    }
  }

  /**
   Bus discipline: the enable flag is the balance of successful inits and closes, and every
   init, close and transaction happens in its place, whatever fails.
   */
  lemma {:induction false} BusDiscipline(ins: seq<Input>)
    ensures var (a, tr) := Run(INITIAL, ins);
            Disciplined(tr) && Balance(tr) == if a.enabled then 1 else 0
    decreases |ins|
  {
    hide InputStep, OnBus, MayFollow;
    if |ins| > 0 {
      var front, last := ins[..|ins| - 1], ins[|ins| - 1];
      BusDiscipline(front);
      var (a, before) := Run(INITIAL, front);
      StepOnBus(a, last);
      KeepsOrder(a.enabled, InputStep(a, last).0.enabled, before, InputStep(a, last).1);
      DisciplinedAppends(before, InputStep(a, last).1);
    }
  }

  /** The successful inits (true) and closes (false) in order. */
  function Switches(tr: seq<Event>): seq<bool>
    decreases |tr|
  {
    if |tr| == 0 then [] else
    var e := tr[|tr| - 1];
    Switches(tr[..|tr| - 1]) + (if e == Init(true) then [true] else if e == Close(true) then [false] else [])
  }

  lemma {:induction false} SwitchesAlternate(tr: seq<Event>)
    requires Disciplined(tr)
    ensures |Switches(tr)| % 2 == Balance(tr)
    ensures forall j :: 0 <= j < |Switches(tr)| ==> (Switches(tr)[j] <==> j % 2 == 0)
    decreases |tr|
  {
    hide Disciplined;
    if |tr| > 0 {
      var front, last := tr[..|tr| - 1], [tr[|tr| - 1]];
      assert front + last == tr && front + last[..0] == front;
      DisciplinedAppends(front, last);
      SwitchesAlternate(front);
    }
  }

  /** Successful inits and closes strictly alternate, starting with an init; transactions fall in between. */
  lemma InitsAndClosesAlternate(ins: seq<Input>)
    ensures var tr := Run(INITIAL, ins).1;
            && (forall j :: 0 <= j < |Switches(tr)| ==> (Switches(tr)[j] <==> j % 2 == 0))
            && (forall i :: 0 <= i < |tr| && tr[i].Exchange? ==> Balance(tr[..i]) == 1)
  {
    BusDiscipline(ins);
    SwitchesAlternate(Run(INITIAL, ins).1);
  }

  lemma TailInOrder(tr: seq<Event>, a: App, firstOk: bool, secondOk: bool)
    requires Balance(tr) == if a.enabled then 1 else 0
    ensures MayFollow(tr, Shutdown(a, firstOk, secondOk)) <==> a.enabled && !firstOk
  {
    hide Balance, DecodeHk, Overwrite;
    var tail := Shutdown(a, firstOk, secondOk);
    assert tr + tail[..0] == tr;
    if a.enabled {
      assert tr + tail[..1] == tr + [Close(firstOk)];
      BalanceAdds(tr, [Close(firstOk)]);
      BalanceOfOne(Close(firstOk));
      assert !firstOk <==> InOrder(tr + tail[..1], tail[1]);
    } else {
      assert !InOrder(tr + tail[..0], tail[0]);
    }
  }

  /**
   The tail breaks the discipline unless the device was enabled and did not close: otherwise it
   attempts to close what is already closed.
   */
  lemma ShutdownDiscipline(ins: seq<Input>, firstOk: bool, secondOk: bool)
    ensures var (a, tr) := Run(INITIAL, ins);
            var tail := Shutdown(a, firstOk, secondOk);
            && tail == (if a.enabled then [Close(firstOk)] else []) + [Close(secondOk)]
            && (Disciplined(tr + tail) <==> a.enabled && !firstOk)
  {
    hide Run, Disciplined, MayFollow;
    BusDiscipline(ins);
    var (a, tr) := Run(INITIAL, ins);
    var tail := Shutdown(a, firstOk, secondOk);
    DisciplinedAppends(tr, tail);
    TailInOrder(tr, a, firstOk, secondOk);
  }

  // ---------- published data ----------

  /** d decodes the three transactions 2, 3, 4 that come last in `before`. */
  predicate FromOneRequest(before: seq<Event>, d: DeviceData) {
    var n := |before|;
    && n >= 3
    && before[n - 3].Exchange? && before[n - 3].code == REQ_X_CMD && before[n - 3].t.Ok()
    && before[n - 2].Exchange? && before[n - 2].code == REQ_Y_CMD && before[n - 2].t.Ok()
    && before[n - 1].Exchange? && before[n - 1].code == REQ_Z_CMD && before[n - 1].t.Ok()
    && d.x == DecodeAxis(before[n - 3].t.data)
    && d.y == DecodeAxis(before[n - 2].t.data)
    && d.z == DecodeAxis(before[n - 1].t.data)
  }

  predicate NeverMixed(tr: seq<Event>) {
    forall i :: 0 <= i < |tr| && tr[i].DataOut? ==> FromOneRequest(tr[..i], tr[i].data)
  }

  /** A published packet is the fourth event of its step, after its three transactions. */
  lemma DataOutShape(a: App, i: Input)
    ensures var now := InputStep(a, i).1;
            forall j :: 0 <= j < |now| && now[j].DataOut? ==> j == 3 && FromOneRequest(now[..3], now[3].data)
  {
    hide InputStep, DecodeHk, DecodeAxis;
    var now := InputStep(a, i).1;
    if IsDataRequest(i) {
      DataCase(a, i);
      var ts := i.env.data;
      if a.enabled && AllThree(ts) {
        assert now[0] == Exchange(2, ts[0]) && now[1] == Exchange(3, ts[1]) && now[2] == Exchange(4, ts[2]);
      }
    } else if IsHkRequest(i) {
      HkCase(a, i);
    } else {
      OtherCase(a, i);
    }
  }

  lemma FromOneRequestAfter(before: seq<Event>, three: seq<Event>, d: DeviceData)
    ensures FromOneRequest(three, d) ==> FromOneRequest(before + three, d)
  {
    hide DecodeAxis;
    var m, n := |three|, |before + three|;
    if FromOneRequest(three, d) {
      assert (before + three)[n - 3] == three[m - 3];
      assert (before + three)[n - 2] == three[m - 2];
      assert (before + three)[n - 1] == three[m - 1];
    }
  }

  lemma StepNeverMixes(a: App, i: Input, before: seq<Event>)
    requires NeverMixed(before)
    ensures NeverMixed(before + InputStep(a, i).1)
  {
    hide InputStep, FromOneRequest;
    var now := InputStep(a, i).1;
    DataOutShape(a, i);
    forall k | 0 <= k < |before + now| && (before + now)[k].DataOut?
      ensures FromOneRequest((before + now)[..k], (before + now)[k].data)
    {
      if k < |before| {
        assert (before + now)[..k] == before[..k];
      } else {
        assert now[k - |before|].DataOut?;
        FromOneRequestAfter(before, now[..3], now[3].data);
        assert (before + now)[..k] == before + now[..3];
      }
    }
  }

  /** Published data packets are never mixed, although failed requests leave the packet in memory mixed. */
  lemma {:induction false} PublishedDataIsFresh(ins: seq<Input>)
    ensures NeverMixed(Run(INITIAL, ins).1)
    decreases |ins|
  {
    hide InputStep;
    if |ins| > 0 {
      PublishedDataIsFresh(ins[..|ins| - 1]);
      var (a, before) := Run(INITIAL, ins[..|ins| - 1]);
      StepNeverMixes(a, ins[|ins| - 1], before);
    }
  }

  // ---------- what is in memory ----------

  datatype Maybe = Nothing | Just(data: Payload)

  /** The reply of the most recent successful transaction with this command code. */
  function Latest(tr: seq<Event>, code: Byte): Maybe
    decreases |tr|
  {
    if |tr| == 0 then Nothing else
    var e := tr[|tr| - 1];
    if e.Exchange? && e.code == code && e.t.Ok() then Just(e.t.data) else Latest(tr[..|tr| - 1], code)
  }

  lemma {:induction false} LatestAppends(s: seq<Event>, t: seq<Event>, code: Byte)
    ensures Latest(s + t, code) == if Latest(t, code).Just? then Latest(t, code) else Latest(s, code)
    decreases |t|
  {
    if |t| == 0 {
      assert s + t == s;
    } else {
      assert (s + t)[..|s + t| - 1] == s + t[..|t| - 1];
      LatestAppends(s, t[..|t| - 1], code);
    }
  }

  lemma {:induction false} LatestNothing(t: seq<Event>, code: Byte)
    requires forall i :: 0 <= i < |t| ==> !(t[i].Exchange? && t[i].code == code && t[i].t.Ok())
    ensures Latest(t, code) == Nothing
    decreases |t|
  {
    if |t| > 0 {
      LatestNothing(t[..|t| - 1], code);
    }
  }

  /** The only success with this code is the last in t. */
  lemma LatestIs(t: seq<Event>, code: Byte, i: nat)
    requires i < |t| && t[i].Exchange? && t[i].code == code && t[i].t.Ok()
    requires forall j :: i < j < |t| ==> !(t[j].Exchange? && t[j].code == code && t[j].t.Ok())
    ensures Latest(t, code) == Just(t[i].t.data)
  {
    assert t == t[..i + 1] + t[i + 1..];
    LatestNothing(t[i + 1..], code);
    LatestAppends(t[..i + 1], t[i + 1..], code);
  }

  function HkOf(m: Maybe): HkData {
    match m
    case Nothing => HkData(0, 0)
    case Just(p) => DecodeHk(p)
  }

  function AxisOf(m: Maybe): AxisData {
    match m
    case Nothing => AxisData(0.0, 0.0)
    case Just(p) => DecodeAxis(p)
  }

  /** Memory holds the decode of the latest successful transaction of each kind. */
  predicate Remembers(a: App, tr: seq<Event>) {
    && a.hk == HkOf(Latest(tr, REQ_HK_CMD))
    && a.data == DeviceData(
         AxisOf(Latest(tr, REQ_X_CMD)), AxisOf(Latest(tr, REQ_Y_CMD)), AxisOf(Latest(tr, REQ_Z_CMD)))
  }

  predicate SnapshotsTrue(tr: seq<Event>) {
    forall i :: 0 <= i < |tr| && tr[i].HkOut? ==> tr[i].pkt.hk == HkOf(Latest(tr[..i], REQ_HK_CMD))
  }

  lemma LatestOfExchanges(ts: Transfers, more: seq<Event>, code: Byte)
    requires more == [] || (|more| == 1 && more[0].DataOut?)
    requires 1 <= code <= 4
    ensures Latest(Exchanges(ts) + more, code) ==
            if code >= 2 && code - 2 < |ts| && ts[code - 2].Ok() then Just(ts[code - 2].data) else Nothing
  {
    var t := Exchanges(ts) + more;
    if code >= 2 && code - 2 < |ts| && ts[code - 2].Ok() {
      LatestIs(t, code, code - 2);
    } else {
      LatestNothing(t, code);
    }
  }

  lemma DataRemembers(a: App, ts: Transfers, before: seq<Event>)
    requires Remembers(a, before)
    ensures var (b, now) := DataStep(a, ts); Remembers(b, before + now)
  {
    hide DecodeHk, DecodeAxis, Exchanges, Latest;
    var (b, now) := DataStep(a, ts);
    if a.enabled {
      var more := if AllThree(ts) then [DataOut(b.data)] else [];
      assert now == Exchanges(ts) + more;
      forall code: Byte | 1 <= code <= 4
        ensures Latest(before + now, code) ==
          if Latest(now, code).Just? then Latest(now, code) else Latest(before, code)
        ensures Latest(now, code) ==
          if code >= 2 && code - 2 < |ts| && ts[code - 2].Ok() then Just(ts[code - 2].data) else Nothing
      {
        LatestAppends(before, now, code);
        LatestOfExchanges(ts, more, code);
      }
    } else {
      assert before + now == before;
    }
  }

  lemma HkRemembers(a: App, t: Transfer, before: seq<Event>)
    requires Remembers(a, before)
    ensures var (b, now) := HousekeepingStep(a, t); Remembers(b, before + now)
  {
    hide DecodeHk, DecodeAxis, Latest;
    var (b, now) := HousekeepingStep(a, t);
    forall code: Byte | 1 <= code <= 4
      ensures Latest(before + now, code) ==
        if Latest(now, code).Just? then Latest(now, code) else Latest(before, code)
      ensures Latest(now, code) == if code == 1 && a.enabled && t.Ok() then Just(t.data) else Nothing
    {
      LatestAppends(before, now, code);
      if code == 1 && a.enabled && t.Ok() { LatestIs(now, 1, 0); } else { LatestNothing(now, code); }
    }
  }

  lemma StepRemembers(a: App, i: Input, before: seq<Event>)
    requires Remembers(a, before)
    ensures var (b, now) := InputStep(a, i); Remembers(b, before + now)
  {
    hide InputStep, DataStep, HousekeepingStep, AxisOf, HkOf, Latest;
    if IsDataRequest(i) {
      DataCase(a, i);
      DataRemembers(a, i.env.data, before);
    } else if IsHkRequest(i) {
      HkCase(a, i);
      HkRemembers(a, i.env.hk, before);
    } else {
      OtherCase(a, i);
      var now := InputStep(a, i).1;
      forall code: Byte | 1 <= code <= 4 ensures Latest(before + now, code) == Latest(before, code) {
        LatestAppends(before, now, code);
        LatestNothing(now, code);
      }
    }
  }

  /** Exactly the valid housekeeping requests publish, and each publishes one packet, last in its step. */
  lemma OnePacketPerRequest(a: App, i: Input)
    ensures var (b, now) := InputStep(a, i);
            && (IsHkRequest(i) ==> |now| > 0 && now[|now| - 1] == HkOut(PacketOf(b)))
            && (forall k :: 0 <= k < |now| ==> (now[k].HkOut? <==> IsHkRequest(i) && k == |now| - 1))
  {
    hide InputStep, DecodeHk, Overwrite;
    if IsHkRequest(i) {
      HkCase(a, i);
    } else if IsDataRequest(i) {
      DataCase(a, i);
    } else {
      OtherCase(a, i);
    }
  }

  lemma StepSnapshots(a: App, i: Input, before: seq<Event>)
    requires Remembers(a, before) && SnapshotsTrue(before)
    ensures SnapshotsTrue(before + InputStep(a, i).1)
  {
    hide InputStep, AxisOf, HkOf;
    StepRemembers(a, i, before);
    OnePacketPerRequest(a, i);
    var (b, now) := InputStep(a, i);
    var all := before + now;
    forall k | 0 <= k < |all| && all[k].HkOut?
      ensures all[k].pkt.hk == HkOf(Latest(all[..k], REQ_HK_CMD))
    {
      if k < |before| {
        assert all[..k] == before[..k];
      } else {
        assert now[k - |before|].HkOut?;
        assert all[..|all| - 1] == all[..k];
      }
    }
  }

  lemma StartsRemembering()
    ensures Remembers(INITIAL, [])
  {
  }

  /**
   Housekeeping snapshot law: in every published packet the device fields decode the most recent
   successful housekeeping transaction, or are zero if there was none.
   */
  lemma {:induction false} HousekeepingSnapshot(ins: seq<Input>)
    ensures var (a, tr) := Run(INITIAL, ins); Remembers(a, tr) && SnapshotsTrue(tr)
    decreases |ins|
  {
    hide InputStep, AxisOf, HkOf;
    if |ins| == 0 {
      StartsRemembering();
    } else {
      HousekeepingSnapshot(ins[..|ins| - 1]);
      var (a, before) := Run(INITIAL, ins[..|ins| - 1]);
      StepRemembers(a, ins[|ins| - 1], before);
      StepSnapshots(a, ins[|ins| - 1], before);
    }
  }

  // ---------- counter conservation ----------

  /** Messages since the last accepted reset that were not valid telemetry requests. */
  function Counted(ins: seq<Input>): nat
    decreases |ins|
  {
    if |ins| == 0 then 0 else
    var last, n := ins[|ins| - 1], Counted(ins[..|ins| - 1]);
    if last.Command? || last.m.IsTelemetryRequest() then n
    else if last.m.IsReset() then 0
    else n + 1
  }

  /** A command that the flight software accepts, given whether the bus is open. */
  predicate Accepted(m: Msg, open: bool) {
    && m.id == CMD_MID && m.length == NO_ARGS_LENGTH
    && (m.code == NOOP_CC || (m.code == ENABLE_CC && !open) || (m.code == DISABLE_CC && open))
  }

  /** Commands accepted since the last accepted reset. */
  function AcceptedSince(ins: seq<Input>): nat
    decreases |ins|
  {
    if |ins| == 0 then 0 else
    var front, last := ins[..|ins| - 1], ins[|ins| - 1];
    if last.Command? then AcceptedSince(front)
    else if last.m.IsReset() then 0
    else AcceptedSince(front) + (if Accepted(last.m, Balance(Run(INITIAL, front).1) == 1) then 1 else 0)
  }

  predicate IsSuccess(e: Event) {
    e == Init(true) || e == Close(true) || (e.Exchange? && e.code == REQ_HK_CMD && e.t.Ok()) || e.DataOut?
  }

  /** Device operations that succeeded: an init, a close, a housekeeping transaction, a published data request. */
  function Successes(tr: seq<Event>): nat
    decreases |tr|
  {
    if |tr| == 0 then 0 else Successes(tr[..|tr| - 1]) + (if IsSuccess(tr[|tr| - 1]) then 1 else 0)
  }

  predicate IsAttempt(e: Event) {
    e.Init? || e.Close? || (e.Exchange? && (e.code == REQ_HK_CMD || e.code == REQ_X_CMD))
  }

  /** Device operations attempted: each data request starts with a transaction for the X axis. */
  function Attempts(tr: seq<Event>): nat
    decreases |tr|
  {
    if |tr| == 0 then 0 else Attempts(tr[..|tr| - 1]) + (if IsAttempt(tr[|tr| - 1]) then 1 else 0)
  }

  /** The events since the last accepted reset. */
  function Recent(ins: seq<Input>): seq<Event>
    decreases |ins|
  {
    if |ins| == 0 then [] else
    var front, last := ins[..|ins| - 1], ins[|ins| - 1];
    if last.Message? && last.m.IsReset() then []
    else Recent(front) + InputStep(Run(INITIAL, front).0, last).1
  }

  lemma {:induction false} TalliesAdd(s: seq<Event>, t: seq<Event>)
    ensures Successes(s + t) == Successes(s) + Successes(t)
    ensures Attempts(s + t) == Attempts(s) + Attempts(t)
    decreases |t|
  {
    if |t| == 0 {
      assert s + t == s;
    } else {
      assert (s + t)[..|s + t| - 1] == s + t[..|t| - 1];
      TalliesAdd(s, t[..|t| - 1]);
    }
  }

  lemma TallyOne(e: Event)
    ensures Successes([e]) == if IsSuccess(e) then 1 else 0
    ensures Attempts([e]) == if IsAttempt(e) then 1 else 0
  {
    assert [e][..0] == [];
  }

  lemma TallyExchanges(ts: Transfers)
    ensures Successes(Exchanges(ts)) == 0 && Attempts(Exchanges(ts)) == 1
  {
    var es := Exchanges(ts);
    TallyOne(Exchange(2, ts[0]));
    assert es[..1] == [Exchange(2, ts[0])];
    if |ts| > 1 {
      TallyOne(Exchange(3, ts[1]));
      assert es[..2] == es[..1] + [Exchange(3, ts[1])];
      TalliesAdd(es[..1], [Exchange(3, ts[1])]);
    }
    if |ts| > 2 {
      TallyOne(Exchange(4, ts[2]));
      assert es[..3] == es[..2] + [Exchange(4, ts[2])];
      TalliesAdd(es[..2], [Exchange(4, ts[2])]);
    }
    assert es == es[..|ts|];
  }

  /** b's device counters are a's, advanced by the tallies of `now`. */
  predicate Advanced(a: App, b: App, now: seq<Event>) {
    && Successes(now) <= Attempts(now)
    && b.dev == (a.dev + Successes(now)) % 0x100
    && b.devErr == (a.devErr + Attempts(now) - Successes(now)) % 0x100
  }

  lemma HkTallies(a: App, t: Transfer)
    ensures var (b, now) := HousekeepingStep(a, t); Advanced(a, b, now)
  {
    hide DecodeHk;
    var (b, now) := HousekeepingStep(a, t);
    TallyOne(HkOut(PacketOf(b)));
    if a.enabled {
      assert now == [Exchange(REQ_HK_CMD, t)] + [HkOut(PacketOf(b))];
      TallyOne(Exchange(REQ_HK_CMD, t));
      TalliesAdd([Exchange(REQ_HK_CMD, t)], [HkOut(PacketOf(b))]);
    }
  }

  lemma DataTallies(a: App, ts: Transfers)
    ensures var (b, now) := DataStep(a, ts); Advanced(a, b, now)
  {
    hide Overwrite, Exchanges;
    var (b, now) := DataStep(a, ts);
    if a.enabled {
      TallyExchanges(ts);
      if AllThree(ts) {
        TallyOne(DataOut(b.data));
        TalliesAdd(Exchanges(ts), [DataOut(b.data)]);
      }
    }
  }

  lemma OtherTallies(a: App, i: Input)
    requires !IsHkRequest(i) && !IsDataRequest(i) && (i.Message? ==> !i.m.IsReset())
    ensures var (b, now) := InputStep(a, i); Advanced(a, b, now)
  {
    hide DecodeHk, Overwrite;
    var now := InputStep(a, i).1;
    if |now| > 0 {
      TallyOne(now[0]);
    }
  }

  /** How one step, other than a reset, changes the two device counters. */
  lemma StepTallies(a: App, i: Input)
    requires i.Message? ==> !i.m.IsReset()
    ensures var (b, now) := InputStep(a, i); Advanced(a, b, now)
  {
    hide InputStep, HousekeepingStep, DataStep, Advanced;
    if IsHkRequest(i) {
      HkCase(a, i);
      HkTallies(a, i.env.hk);
    } else if IsDataRequest(i) {
      DataCase(a, i);
      DataTallies(a, i.env.data);
    } else {
      OtherTallies(a, i);
    }
  }

  lemma ResetClears(a: App, i: Input)
    requires i.Message? && i.m.IsReset()
    ensures var b := InputStep(a, i).0; b.cmd == b.cmdErr == b.dev == b.devErr == 0
  {
  }

  lemma AddWraps(x: int, m: int, k: int)
    requires x == m % 0x100
    ensures (x + k) % 0x100 == (m + k) % 0x100
  {
    assert m + k == x + k + 0x100 * (m / 0x100);
  }

  lemma CountsOn(b: Byte, n: nat)
    requires b == n % 0x100
    ensures Inc(b) == (n + 1) % 0x100
  {
    AddWraps(b, n, 1);
  }

  lemma SumWraps(x: int, y: int, m: int, n: int)
    requires x == m % 0x100 && y == n % 0x100
    ensures (x + y) % 0x100 == (m + n) % 0x100
  {
    AddWraps(x, m, y);
    AddWraps(y, n, m);
  }

  /** The two device counters, exactly: successes and failures since the last accepted reset. */
  lemma {:induction false} DeviceCountersConserved(ins: seq<Input>)
    ensures var (a, r) := (Run(INITIAL, ins).0, Recent(ins));
            && Successes(r) <= Attempts(r)
            && a.dev == Successes(r) % 0x100
            && a.devErr == (Attempts(r) - Successes(r)) % 0x100
            && (a.dev + a.devErr) % 0x100 == Attempts(r) % 0x100
    decreases |ins|
  {
    hide InputStep, Successes, Attempts;
    var (s, t) := (Successes(Recent(ins)), Attempts(Recent(ins)));
    if |ins| == 0 {
      TalliesAdd([], []);
      assert Recent(ins) == [] + [];
    } else {
      var front, last := ins[..|ins| - 1], ins[|ins| - 1];
      DeviceCountersConserved(front);
      var a := Run(INITIAL, front).0;
      if last.Message? && last.m.IsReset() {
        ResetClears(a, last);
        TalliesAdd([], []);
        assert [] + [] == Recent(ins);
      } else {
        var now := InputStep(a, last).1;
        StepTallies(a, last);
        TalliesAdd(Recent(front), now);
        var (s0, t0) := (Successes(Recent(front)), Attempts(Recent(front)));
        AddWraps(a.dev, s0, Successes(now));
        AddWraps(a.devErr, t0 - s0, Attempts(now) - Successes(now));
      }
    }
    SumWraps(Run(INITIAL, ins).0.dev, Run(INITIAL, ins).0.devErr, s, t - s);
  }

  /** How one step changes the two command counters. */
  lemma StepCommandCounters(a: App, i: Input)
    requires i.Message?
    ensures var b := InputStep(a, i).0;
            if i.m.IsReset() then b.cmd == b.cmdErr == 0
            else if i.m.IsTelemetryRequest() then b.cmd == a.cmd && b.cmdErr == a.cmdErr
            else if Accepted(i.m, a.enabled) then b.cmd == Inc(a.cmd) && b.cmdErr == a.cmdErr
            else b.cmd == a.cmd && b.cmdErr == Inc(a.cmdErr)
  {
  }

  lemma CommandLeaves(a: App, i: Input)
    requires i.Command?
    ensures InputStep(a, i).0 == a
  {
  }

  /** The command counters are these two numbers, wrapped. */
  predicate CommandTally(a: App, accepted: nat, counted: nat) {
    && accepted <= counted
    && a.cmd == accepted % 0x100
    && a.cmdErr == (counted - accepted) % 0x100
  }

  lemma TallyCommand(a: App, i: Input, accepted: nat, counted: nat)
    requires i.Message? && CommandTally(a, accepted, counted)
    ensures var b := InputStep(a, i).0;
            if i.m.IsReset() then CommandTally(b, 0, 0)
            else if i.m.IsTelemetryRequest() then CommandTally(b, accepted, counted)
            else CommandTally(b, if Accepted(i.m, a.enabled) then accepted + 1 else accepted, counted + 1)
  {
    hide InputStep;
    StepCommandCounters(a, i);
    AddWraps(a.cmd, accepted, 1);
    AddWraps(a.cmdErr, counted - accepted, 1);
  }

  lemma NotAccepted(m: Msg, open: bool)
    requires m.IsTelemetryRequest()
    ensures !Accepted(m, open) && !m.IsReset()
  {
  }

  lemma TallyStart()
    ensures CommandTally(INITIAL, 0, 0)
  {
  }

  lemma {:induction false} CommandsTallied(ins: seq<Input>)
    ensures CommandTally(Run(INITIAL, ins).0, AcceptedSince(ins), Counted(ins))
    decreases |ins|
  {
    hide InputStep, CommandTally, Accepted;
    if |ins| == 0 {
      assert CommandTally(INITIAL, 0, 0) by { TallyStart(); }
    } else {
      var front, last := ins[..|ins| - 1], ins[|ins| - 1];
      var a := Run(INITIAL, front).0;
      CommandsTallied(front);
      BusDiscipline(front);
      if last.Command? {
        CommandLeaves(a, last);
      } else {
        TallyCommand(a, last, AcceptedSince(front), Counted(front));
        if last.m.IsTelemetryRequest() { NotAccepted(last.m, a.enabled); }
      }
    }
  }

  /** The two command counters, exactly: commands accepted since the last accepted reset, and all else counted. */
  lemma CommandCountersConserved(ins: seq<Input>)
    ensures var a := Run(INITIAL, ins).0;
            && AcceptedSince(ins) <= Counted(ins)
            && a.cmd == AcceptedSince(ins) % 0x100
            && a.cmdErr == (Counted(ins) - AcceptedSince(ins)) % 0x100
            && (a.cmd + a.cmdErr) % 0x100 == Counted(ins) % 0x100
  {
    hide Run, AcceptedSince, Counted;
    CommandsTallied(ins);
    var a := Run(INITIAL, ins).0;
    SumWraps(a.cmd, a.cmdErr, AcceptedSince(ins), Counted(ins) - AcceptedSince(ins));
  }

  // ---------- what a housekeeping packet says ----------

  /** The packet says, field by field, what the inputs and the record up to it amount to. */
  ghost predicate PacketReports(p: HkPacket, ins: seq<Input>, before: seq<Event>) {
    && AcceptedSince(ins) <= Counted(ins)
    && p.cmd == AcceptedSince(ins) % 0x100
    && p.cmdErr == (Counted(ins) - AcceptedSince(ins)) % 0x100
    && p.dev == Successes(Recent(ins)) % 0x100
    && p.devErr == (Attempts(Recent(ins)) - Successes(Recent(ins))) % 0x100
    && (p.enabled <==> Balance(before) == 1)
    && p.hk == HkOf(Latest(before, REQ_HK_CMD))
  }

  /** The events of a housekeeping request: a packet, after at most one transaction. */
  lemma PacketEndsStep(a: App, i: Input)
    requires IsHkRequest(i)
    ensures var (b, now) := InputStep(a, i);
            && |now| > 0 && now[|now| - 1].HkOut?
            && b.enabled == a.enabled
            && var p := now[|now| - 1].pkt;
               && p.cmd == b.cmd && p.cmdErr == b.cmdErr && p.dev == b.dev && p.devErr == b.devErr
               && p.enabled == b.enabled && p.hk == b.hk
  {
    hide DecodeHk;
  }

  /** The record before the last event, when that is a packet. */
  lemma BeforePacket(tr: seq<Event>)
    requires |tr| > 0 && tr[|tr| - 1].HkOut?
    ensures Balance(tr[..|tr| - 1]) == Balance(tr)
    ensures Latest(tr[..|tr| - 1], REQ_HK_CMD) == Latest(tr, REQ_HK_CMD)
  {
  }

  /** A run that ends in a housekeeping request ends its record with a packet that reports the run. */
  lemma RequestReports(ins: seq<Input>)
    requires |ins| > 0 && IsHkRequest(ins[|ins| - 1])
    ensures var tr := Run(INITIAL, ins).1;
            |tr| > 0 && tr[|tr| - 1].HkOut? && PacketReports(tr[|tr| - 1].pkt, ins, tr[..|tr| - 1])
  {
    hide InputStep, Balance, Latest, AcceptedSince, Counted, Successes, Attempts, Recent, HkOf, AxisOf;
    PacketEndsStep(Run(INITIAL, ins[..|ins| - 1]).0, ins[|ins| - 1]);
    var tr := Run(INITIAL, ins).1;
    BeforePacket(tr);
    BusDiscipline(ins);
    HousekeepingSnapshot(ins);
    CommandCountersConserved(ins);
    DeviceCountersConserved(ins);
  }

  /** s is t up to and including i. */
  predicate IsPrefix(s: seq<Event>, i: nat, t: seq<Event>) { i < |t| && s == t[..i + 1] }

  /** The packet at i of the record is the last event of the first n inputs, and reports them. */
  ghost predicate ReportsAt(ins: seq<Input>, i: nat, n: nat) {
    && n <= |ins| && IsPrefix(Run(INITIAL, ins[..n]).1, i, Run(INITIAL, ins).1)
    && Run(INITIAL, ins).1[i].HkOut?
    && PacketReports(Run(INITIAL, ins).1[i].pkt, ins[..n], Run(INITIAL, ins).1[..i])
  }

  /** Every packet in the record of every run reports, field by field, the inputs and the record up to it. */
  lemma {:induction false} EveryPacketReports(ins: seq<Input>)
    ensures var tr := Run(INITIAL, ins).1;
            forall i: nat :: i < |tr| && tr[i].HkOut? ==> exists n: nat :: ReportsAt(ins, i, n)
    decreases |ins|
  {
    hide InputStep, PacketReports;
    if |ins| > 0 {
      var front, last := ins[..|ins| - 1], ins[|ins| - 1];
      EveryPacketReports(front);
      var (a, before) := Run(INITIAL, front);
      OnePacketPerRequest(a, last);
      var tr := Run(INITIAL, ins).1;
      forall i: nat | i < |tr| && tr[i].HkOut? ensures exists n: nat :: ReportsAt(ins, i, n) {
        if i < |before| {
          assert before[i] == tr[i] && Run(INITIAL, front).1 == before;
          assert exists n: nat :: ReportsAt(front, i, n);
          var n: nat :| ReportsAt(front, i, n);
          assert front[..n] == ins[..n] && tr[..i] == before[..i] && tr[..i + 1] == before[..i + 1];
          assert ReportsAt(ins, i, n);
        } else {
          RequestReports(ins);
          assert ins[..|ins|] == ins && tr[..i + 1] == tr;
          assert ReportsAt(ins, i, |ins|);
        }
      }
    }
  }

  // ---------- what the ground can recover ----------

  lemma {:induction false} CountedAppends(s: seq<Input>, t: seq<Input>)
    requires forall i :: 0 <= i < |t| && t[i].Message? ==> !t[i].m.IsReset()
    ensures Counted(s + t) == Counted(s) + Counted(t)
    decreases |t|
  {
    if |t| == 0 {
      assert s + t == s;
    } else {
      assert (s + t)[..|s + t| - 1] == s + t[..|t| - 1];
      CountedAppends(s, t[..|t| - 1]);
    }
  }

  lemma DifferenceWraps(x: int, y: int, m: int, n: int)
    requires x % 0x100 == m % 0x100 && y % 0x100 == (m + n) % 0x100 && 0 <= n < 0x100
    ensures (y - x) % 0x100 == n
  {
    assert ((y - x) - n) % 0x100 == 0 by {
      var i, j := x / 0x100 - m / 0x100, y / 0x100 - (m + n) / 0x100;
      assert x - m == 0x100 * i && y - (m + n) == 0x100 * j;
      assert (y - x) - n == 0x100 * (j - i);
    }
  }

  /** The packet that a housekeeping request publishes at the end of a run. */
  function PacketAfter(ins: seq<Input>): HkPacket { PacketOf(Run(INITIAL, ins).0) }

  /**
   Between two housekeeping packets without a reset, the wrapped difference of the counter sums is
   the number of counted messages, if there were fewer than 256.
   */
  lemma GroundRecoversCount(before: seq<Input>, between: seq<Input>)
    requires |before| > 0 && IsHkRequest(before[|before| - 1])
    requires |between| > 0 && IsHkRequest(between[|between| - 1])
    requires forall i :: 0 <= i < |between| && between[i].Message? ==> !between[i].m.IsReset()
    requires Counted(between) < 0x100
    ensures var p, q := PacketAfter(before), PacketAfter(before + between);
            ((q.cmd + q.cmdErr) - (p.cmd + p.cmdErr)) % 0x100 == Counted(between)
  {
    hide Run, Counted, AcceptedSince;
    CommandCountersConserved(before);
    CommandCountersConserved(before + between);
    CountedAppends(before, between);
    var p, q := PacketAfter(before), PacketAfter(before + between);
    DifferenceWraps(p.cmd + p.cmdErr, q.cmd + q.cmdErr, Counted(before), Counted(between));
  }

  /** Those packets are the ones that the two requests publish. */
  lemma PacketIsPublished(ins: seq<Input>)
    requires |ins| > 0 && IsHkRequest(ins[|ins| - 1])
    ensures var tr := Run(INITIAL, ins).1; |tr| > 0 && tr[|tr| - 1] == HkOut(PacketAfter(ins))
  {
    OnePacketPerRequest(Run(INITIAL, ins[..|ins| - 1]).0, ins[|ins| - 1]);
  }
}
