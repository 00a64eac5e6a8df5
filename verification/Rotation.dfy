/** Who talks when: the rotating speakers of a room
    (load_tests/src/browser_profile.rs). */
module Rotation {

  import opened Arithmetic

  const SPEAKER_SLOT_SECONDS: nat := 10

  predicate SpeaksInSlot(index: nat, publishers: nat, speakers: nat, slot: nat) {
    if publishers == 0 || speakers == 0 || index >= publishers then false
    else if speakers >= publishers then true
    else
      var first := slot % publishers;
      (index + publishers - first) % publishers < speakers
  }

  /** `is_speaking`, with times in milliseconds; before the epoch the first slot applies. */
  predicate IsSpeaking(index: nat, publishers: nat, speakers: nat, epoch: int, slotMs: nat, now: int) {
    var length: nat := if slotMs < 1 then 1 else slotMs;
    var elapsed: nat := if now < epoch then 0 else now - epoch;
    SpeaksInSlot(index, publishers, speakers, elapsed / length)
  }

  function Min(x: nat, y: nat): nat {
    if x <= y then x else y
  }

  function AtLeastZero(x: int): nat {
    if x < 0 then 0 else x
  }

  /** The publishers below `n` who talk in a slot. */
  function Talkers(publishers: nat, speakers: nat, slot: nat, n: nat): set<nat> {
    set i: nat | 0 <= i < n && SpeaksInSlot(i, publishers, speakers, slot)
  }

  /** The slots among `n` from `start` in which a publisher talks. */
  function TalkingSlots(index: nat, publishers: nat, speakers: nat, start: nat, n: nat): set<nat> {
    set t: nat | start <= t < start + n && SpeaksInSlot(index, publishers, speakers, t)
  }

  /** The window of talkers starts at the slot's first publisher and wraps around. */
  lemma SpeaksIff(index: nat, publishers: nat, speakers: nat, slot: nat)
    requires index < publishers && speakers < publishers
    ensures SpeaksInSlot(index, publishers, speakers, slot) <==>
            var first := slot % publishers;
            if index < first then index + publishers - first < speakers else index - first < speakers
  {
    var first := slot % publishers;
    if index < first {
      DivModUnique(index + publishers - first, publishers, 0, index + publishers - first);
    } else {
      DivModUnique(index + publishers - first, publishers, 1, index - first);
    }
  }

  /** The rotation: from one slot to the next the first talker stops and the publisher after
      the last one starts, and nobody else changes. */
  lemma OneHandsOver(index: nat, publishers: nat, speakers: nat, slot: nat)
    requires index < publishers && 0 < speakers < publishers
    ensures SpeaksInSlot(index, publishers, speakers, slot + 1) <==>
            || (SpeaksInSlot(index, publishers, speakers, slot) && index != slot % publishers)
            || index == (slot + speakers) % publishers
    ensures SpeaksInSlot(slot % publishers, publishers, speakers, slot)
    ensures !SpeaksInSlot((slot + speakers) % publishers, publishers, speakers, slot)
  {
    var first := slot % publishers;
    NextModulo(slot, 1, publishers);
    NextModulo(slot, speakers, publishers);
    SpeaksIff(index, publishers, speakers, slot);
    SpeaksIff(index, publishers, speakers, slot + 1);
    SpeaksIff(first, publishers, speakers, slot);
    SpeaksIff((slot + speakers) % publishers, publishers, speakers, slot);
  }

  lemma NextModulo(slot: nat, k: nat, publishers: nat)
    requires k < publishers
    ensures (slot + k) % publishers ==
            if slot % publishers + k < publishers then slot % publishers + k else slot % publishers + k - publishers
  {
    var q, m := slot / publishers, slot % publishers;
    if m + k < publishers {
      DivModUnique(slot + k, publishers, q, m + k);
    } else {
      assert publishers * (q + 1) == publishers * q + publishers;
      DivModUnique(slot + k, publishers, q + 1, m + k - publishers);
    }
  }

  /** Slot `k` lasts from `k` to before `k + 1` slot lengths after the epoch; before the epoch
      the first one applies. */
  lemma SlotsInTime(index: nat, publishers: nat, speakers: nat, epoch: int, slotMs: nat, k: nat, now: int)
    requires slotMs >= 1 && (now < epoch + slotMs * (k + 1)) && (k == 0 || epoch + slotMs * k <= now)
    ensures IsSpeaking(index, publishers, speakers, epoch, slotMs, now) <==>
            SpeaksInSlot(index, publishers, speakers, k)
  {
    assert slotMs * (k + 1) == slotMs * k + slotMs;
    if now < epoch {
      DivModUnique(0, slotMs, 0, 0);
    } else {
      DivModUnique(now - epoch, slotMs, k, now - epoch - slotMs * k);
    }
  }

  lemma {:induction false} TalkersBelow(publishers: nat, speakers: nat, slot: nat, n: nat)
    requires n <= publishers && speakers < publishers
    ensures var first, wrapped := slot % publishers, AtLeastZero(speakers + slot % publishers - publishers);
            |Talkers(publishers, speakers, slot, n)| ==
            if n <= first then Min(n, wrapped) else wrapped + Min(n - first, speakers)
  {
    if n == 0 {
      assert Talkers(publishers, speakers, slot, n) == {};
    } else {
      TalkersBelow(publishers, speakers, slot, n - 1);
      SpeaksIff(n - 1, publishers, speakers, slot);
      var before := Talkers(publishers, speakers, slot, n - 1);
      if SpeaksInSlot(n - 1, publishers, speakers, slot) {
        assert Talkers(publishers, speakers, slot, n) == before + {n - 1};
      } else {
        assert Talkers(publishers, speakers, slot, n) == before;
      }
    }
  }

  lemma {:induction false} EverybodyTalks(publishers: nat, speakers: nat, slot: nat, n: nat)
    requires n <= publishers <= speakers
    ensures |Talkers(publishers, speakers, slot, n)| == n
  {
    if n == 0 {
      assert Talkers(publishers, speakers, slot, n) == {};
    } else {
      EverybodyTalks(publishers, speakers, slot, n - 1);
      assert Talkers(publishers, speakers, slot, n) == Talkers(publishers, speakers, slot, n - 1) + {n - 1};
    }
  }

  /** In every slot exactly `speakers` publishers talk, or all of them if there are fewer:
      rotation does not change the load of the room. */
  lemma SlotLoad(publishers: nat, speakers: nat, slot: nat)
    ensures |Talkers(publishers, speakers, slot, publishers)| == Min(speakers, publishers)
  {
    if speakers < publishers {
      TalkersBelow(publishers, speakers, slot, publishers);
    } else {
      EverybodyTalks(publishers, speakers, slot, publishers);
    }
  }

  /** The same at every instant, before the epoch too and for any slot length. */
  lemma InstantLoad(publishers: nat, speakers: nat, epoch: int, slotMs: nat, now: int)
    ensures |set i: nat | 0 <= i < publishers && IsSpeaking(i, publishers, speakers, epoch, slotMs, now)|
            == Min(speakers, publishers)
  {
    var length: nat := if slotMs < 1 then 1 else slotMs;
    var elapsed: nat := if now < epoch then 0 else now - epoch;
    SlotLoad(publishers, speakers, elapsed / length);
    assert (set i: nat | 0 <= i < publishers && IsSpeaking(i, publishers, speakers, epoch, slotMs, now))
        == Talkers(publishers, speakers, elapsed / length, publishers);
  }

  // ------------------------------------------------------------------ fair rotation

  lemma {:induction false} FirstRound(index: nat, publishers: nat, speakers: nat, n: nat)
    requires index < publishers && speakers < publishers && n <= publishers
    ensures |TalkingSlots(index, publishers, speakers, 0, n)| ==
            if n <= index + 1 then AtLeastZero(n - AtLeastZero(index + 1 - speakers))
            else Min(index + 1, speakers) + AtLeastZero(n - (index + 1 + publishers - speakers))
  {
    if n == 0 {
      assert TalkingSlots(index, publishers, speakers, 0, n) == {};
    } else {
      FirstRound(index, publishers, speakers, n - 1);
      SpeaksIff(index, publishers, speakers, n - 1);
      DivModUnique(n - 1, publishers, 0, n - 1);
      OneMoreSlot(index, publishers, speakers, 0, n - 1);
    }
  }

  lemma OneMoreSlot(index: nat, publishers: nat, speakers: nat, start: nat, n: nat)
    ensures |TalkingSlots(index, publishers, speakers, start, n + 1)| ==
            |TalkingSlots(index, publishers, speakers, start, n)|
            + if SpeaksInSlot(index, publishers, speakers, start + n) then 1 else 0
  {
    var before := TalkingSlots(index, publishers, speakers, start, n);
    if SpeaksInSlot(index, publishers, speakers, start + n) {
      assert TalkingSlots(index, publishers, speakers, start, n + 1) == before + {start + n};
    } else {
      assert TalkingSlots(index, publishers, speakers, start, n + 1) == before;
    }
  }

  lemma OneSlotLess(index: nat, publishers: nat, speakers: nat, start: nat, n: nat)
    ensures |TalkingSlots(index, publishers, speakers, start, n + 1)| ==
            |TalkingSlots(index, publishers, speakers, start + 1, n)|
            + if SpeaksInSlot(index, publishers, speakers, start) then 1 else 0
  {
    var after := TalkingSlots(index, publishers, speakers, start + 1, n);
    if SpeaksInSlot(index, publishers, speakers, start) {
      assert TalkingSlots(index, publishers, speakers, start, n + 1) == after + {start};
    } else {
      assert TalkingSlots(index, publishers, speakers, start, n + 1) == after;
    }
  }

  lemma Periodic(index: nat, publishers: nat, speakers: nat, slot: nat)
    ensures SpeaksInSlot(index, publishers, speakers, slot + publishers) ==
            SpeaksInSlot(index, publishers, speakers, slot)
  {
    if publishers > 0 {
      var q, m := slot / publishers, slot % publishers;
      assert publishers * (q + 1) == publishers * q + publishers;
      DivModUnique(slot + publishers, publishers, q + 1, m);
    }
  }

  /** Over any `publishers` consecutive slots every publisher talks in the same number of
      them, wherever the window starts. */
  lemma {:induction false} FairRotation(index: nat, publishers: nat, speakers: nat, start: nat)
    requires index < publishers
    ensures |TalkingSlots(index, publishers, speakers, start, publishers)| == Min(speakers, publishers)
  {
    if speakers >= publishers {
      AlwaysTalks(index, publishers, speakers, start, publishers);
    } else if start == 0 {
      FirstRound(index, publishers, speakers, publishers);
    } else {
      FairRotation(index, publishers, speakers, start - 1);
      OneSlotLess(index, publishers, speakers, start - 1, publishers);
      OneMoreSlot(index, publishers, speakers, start - 1, publishers);
      Periodic(index, publishers, speakers, start - 1);
    }
  }

  lemma {:induction false} AlwaysTalks(index: nat, publishers: nat, speakers: nat, start: nat, n: nat)
    requires index < publishers <= speakers
    ensures |TalkingSlots(index, publishers, speakers, start, n)| == n
  {
    if n == 0 {
      assert TalkingSlots(index, publishers, speakers, start, n) == {};
    } else {
      AlwaysTalks(index, publishers, speakers, start, n - 1);
      OneMoreSlot(index, publishers, speakers, start, n - 1);
    }
  }

  // ---------------------------------------------------------------- speaking seconds

  function TalkingSeconds(index: nat, publishers: nat, speakers: nat, window: nat): set<nat> {
    set second: nat | 0 <= second < window && SpeaksInSlot(index, publishers, speakers, second / SPEAKER_SLOT_SECONDS)
  }

  function SpeakingSeconds(index: nat, publishers: nat, speakers: nat, window: nat): nat {
    |TalkingSeconds(index, publishers, speakers, window)|
  }

  function TotalSeconds(publishers: nat, speakers: nat, window: nat, n: nat): nat {
    if n == 0 then 0
    else TotalSeconds(publishers, speakers, window, n - 1) + SpeakingSeconds(n - 1, publishers, speakers, window)
  }

  /** `speaking_seconds` counts the seconds in which `is_speaking` answers yes, at any of
      their milliseconds, with the ten-second slots of the workload. */
  lemma SecondsAreSpoken(index: nat, publishers: nat, speakers: nat, window: nat, epoch: int, second: nat, now: int)
    requires second < window && epoch + 1_000 * second <= now < epoch + 1_000 * (second + 1)
    ensures second in TalkingSeconds(index, publishers, speakers, window) <==>
            IsSpeaking(index, publishers, speakers, epoch, 10_000, now)
  {
    SlotsInTime(index, publishers, speakers, epoch, 10_000, second / SPEAKER_SLOT_SECONDS, now);
  }

  lemma OneMoreSecond(index: nat, publishers: nat, speakers: nat, window: nat)
    ensures SpeakingSeconds(index, publishers, speakers, window + 1) ==
            SpeakingSeconds(index, publishers, speakers, window)
            + if SpeaksInSlot(index, publishers, speakers, window / SPEAKER_SLOT_SECONDS) then 1 else 0
  {
    var before := TalkingSeconds(index, publishers, speakers, window);
    var after := TalkingSeconds(index, publishers, speakers, window + 1);
    if SpeaksInSlot(index, publishers, speakers, window / SPEAKER_SLOT_SECONDS) {
      assert after == before + {window};
    } else {
      assert after == before;
    }
  }

  lemma {:induction false} ExchangeSums(publishers: nat, speakers: nat, window: nat, n: nat)
    ensures TotalSeconds(publishers, speakers, window + 1, n) ==
            TotalSeconds(publishers, speakers, window, n)
            + |Talkers(publishers, speakers, window / SPEAKER_SLOT_SECONDS, n)|
  {
    var slot := window / SPEAKER_SLOT_SECONDS;
    if n == 0 {
      assert Talkers(publishers, speakers, slot, n) == {};
    } else {
      ExchangeSums(publishers, speakers, window, n - 1);
      OneMoreSecond(n - 1, publishers, speakers, window);
      var before := Talkers(publishers, speakers, slot, n - 1);
      if SpeaksInSlot(n - 1, publishers, speakers, slot) {
        assert Talkers(publishers, speakers, slot, n) == before + {n - 1};
      } else {
        assert Talkers(publishers, speakers, slot, n) == before;
      }
    }
  }

  /** What validation expects of the publishers adds up to the load of the room. */
  lemma {:induction false} SecondsAddUp(publishers: nat, speakers: nat, window: nat)
    ensures TotalSeconds(publishers, speakers, window, publishers) == window * Min(speakers, publishers)
  {
    if window == 0 {
      NoSeconds(publishers, speakers, publishers);
    } else {
      SecondsAddUp(publishers, speakers, window - 1);
      ExchangeSums(publishers, speakers, window - 1, publishers);
      SlotLoad(publishers, speakers, (window - 1) / SPEAKER_SLOT_SECONDS);
      assert window * Min(speakers, publishers) == (window - 1) * Min(speakers, publishers) + Min(speakers, publishers);
    }
  }

  lemma {:induction false} NoSeconds(publishers: nat, speakers: nat, n: nat)
    ensures TotalSeconds(publishers, speakers, 0, n) == 0
  {
    if n > 0 {
      NoSeconds(publishers, speakers, n - 1);
      assert TalkingSeconds(n - 1, publishers, speakers, 0) == {};
    }
  }
}
