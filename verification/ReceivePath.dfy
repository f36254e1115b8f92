/** The decoder in front of the telegram automaton: raw SYNs injected on the wire leave no trace. */
module ReceivePath {
  import opened Octets
  import opened TelegramFsm
  import opened TelegramRuns
  import EscapeDecoder

  /**
    A legal telegram on the wire, with SYNs injected between its symbols and, within budget and cap,
    inside its escape pairs, reaches the observers unchanged: no decoder event, no fault, and a
    cleared machine behind the terminating SYN.
    */
  lemma WireTelegramPasses(m: Snapshot, t: Telegram, items: seq<EscapeDecoder.Item>, at: EscapeDecoder.Instant)
    requires Starts(m) && t.Legal()
    requires EscapeDecoder.Proper(items) && Strip(EscapeDecoder.MeaningOf(items)) == t.Wire()
    requires items != [] && !IsRaw(items[|items| - 1].Meaning())
    ensures var wire := EscapeDecoder.WireOf(items + [EscapeDecoder.Plain(SYN, at)]);
      var symbols := EscapeDecoder.Symbols(EscapeDecoder.Normal, wire);
      && EscapeDecoder.Quiet(EscapeDecoder.Normal, wire) && EscapeDecoder.Fold(EscapeDecoder.Normal, wire) == EscapeDecoder.Normal
      && Fold(m, symbols) == CLEARED && Faultless(m, symbols)
      && Passed(m, symbols) == t.Wire() + [Symbol(SYN, false)]
  {
    hide Fold, Passed, Faultless, Starts, Strip, EscapeDecoder.Fold, EscapeDecoder.Symbols, EscapeDecoder.Quiet, EscapeDecoder.WireOf;
    var all := items + [EscapeDecoder.Plain(SYN, at)];
    EscapeDecoder.ProperDecodes(all);
    MeaningOn(items, EscapeDecoder.Plain(SYN, at));
    MeaningLast(items);
    LegalTelegramPasses(m, t, EscapeDecoder.MeaningOf(items));
  }

  lemma {:induction false} MeaningOn(items: seq<EscapeDecoder.Item>, last: EscapeDecoder.Item)
    ensures EscapeDecoder.MeaningOf(items + [last]) == EscapeDecoder.MeaningOf(items) + [last.Meaning()]
    decreases items
  {
    if items == [] {
      assert items + [last] == [last];
      assert EscapeDecoder.MeaningOf([last][1..]) == [];
    } else {
      assert (items + [last])[1..] == items[1..] + [last];
      MeaningOn(items[1..], last);
    }
  }

  lemma {:induction false} MeaningLast(items: seq<EscapeDecoder.Item>)
    requires items != []
    ensures var s := EscapeDecoder.MeaningOf(items); s != [] && s[|s| - 1] == items[|items| - 1].Meaning()
    decreases items
  {
    if |items| > 1 {
      MeaningLast(items[1..]);
      assert items[1..][|items| - 2] == items[|items| - 1];
    } else {
      assert EscapeDecoder.MeaningOf(items[1..]) == [];
    }
  }
}
