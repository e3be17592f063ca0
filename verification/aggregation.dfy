/**
 The `/balance` handler: a sequential loop over the registry in insertion order that
 looks up one balance per wallet, numbers the reply lines with keycap emoji and adds
 the amounts up. A lookup whose result cannot be formatted aborts the loop, and the
 reply becomes the generic error.
 */
module Aggregation {
  import opened Options
  import opened Registry
  import opened Fetch
  import opened Emoji
  import opened Bot

  /** The amount wallet `e` contributes, or `None` when formatting its balance throws. */
  function AmountAt(api: string -> ApiResponse, e: Entry): Option<real> {
    AmountOf(api(e.address))
  }

  /** Every wallet's lookup yields a number. */
  predicate AllPriced(w: Wallets, api: string -> ApiResponse) {
    forall i | 0 <= i < |w| :: AmountAt(api, w[i]).Some?
  }

  /** Reference total: the wallets' amounts added up, first wallet first. */
  function Total(w: Wallets, api: string -> ApiResponse): real
    requires AllPriced(w, api)
    decreases |w|
  {
    if |w| == 0 then 0.0
    else
      assert AllPriced(w[1..], api) by {
        assert forall i | 0 <= i < |w[1..]| :: w[1..][i] == w[i + 1];
      }
      AmountAt(api, w[0]).value + Total(w[1..], api)
  }

  /** The reply lines for `w`, numbered from `from + 1`. */
  function Lines(w: Wallets, api: string -> ApiResponse, from: nat): (lines: seq<BalanceLine>)
    requires AllPriced(w, api)
    ensures |lines| == |w|
    ensures forall i | 0 <= i < |w| ::
              lines[i] == BalanceLine(NumberToEmoji(from + i + 1), w[i].name, w[i].address,
                                      AmountAt(api, w[i]).value)
    decreases |w|
  {
    if |w| == 0 then []
    else
      assert AllPriced(w[1..], api) by {
        assert forall i | 0 <= i < |w[1..]| :: w[1..][i] == w[i + 1];
      }
      var head := BalanceLine(NumberToEmoji(from + 1), w[0].name, w[0].address,
                              AmountAt(api, w[0]).value);
      var tail := Lines(w[1..], api, from + 1);
      LinesCons(w, api, from, head, tail);
      [head] + tail
  }

  /** One more line in front: numbering and contents shift by one position. */
  lemma LinesCons(w: Wallets, api: string -> ApiResponse, from: nat,
                  head: BalanceLine, tail: seq<BalanceLine>)
    requires |w| > 0 && AllPriced(w, api)
    requires head == BalanceLine(NumberToEmoji(from + 1), w[0].name, w[0].address,
                                 AmountAt(api, w[0]).value)
    requires |tail| == |w| - 1
    requires forall i | 0 <= i < |w| - 1 ::
               tail[i] == BalanceLine(NumberToEmoji(from + 1 + i + 1), w[1..][i].name,
                                      w[1..][i].address, AmountAt(api, w[1..][i]).value)
    ensures forall i | 0 <= i < |w| ::
              ([head] + tail)[i] == BalanceLine(NumberToEmoji(from + i + 1), w[i].name,
                                                w[i].address, AmountAt(api, w[i]).value)
  {
    forall i | 0 <= i < |w|
      ensures ([head] + tail)[i] == BalanceLine(NumberToEmoji(from + i + 1), w[i].name,
                                                w[i].address, AmountAt(api, w[i]).value)
    {
      if i > 0 {
        assert ([head] + tail)[i] == tail[i - 1];
        assert w[1..][i - 1] == w[i];
        assert from + 1 + (i - 1) + 1 == from + i + 1;
      }
    }
  }

  /** Position of the first wallet whose lookup aborts the loop. */
  function FirstFailure(w: Wallets, api: string -> ApiResponse): (k: nat)
    requires !AllPriced(w, api)
    ensures k < |w| && AmountAt(api, w[k]).None?
    ensures forall i | 0 <= i < k :: AmountAt(api, w[i]).Some?
    decreases |w|
  {
    if AmountAt(api, w[0]).None? then 0
    else
      assert !AllPriced(w[1..], api) by {
        var j :| 0 <= j < |w| && AmountAt(api, w[j]).None?;
        assert w[1..][j - 1] == w[j];
      }
      1 + FirstFailure(w[1..], api)
  }

  /** Adding one more wallet at the end adds its amount to the total. */
  lemma {:induction false} TotalSnoc(w: Wallets, e: Entry, api: string -> ApiResponse)
    requires AllPriced(w, api) && AmountAt(api, e).Some?
    ensures AllPriced(w + [e], api)
    ensures Total(w + [e], api) == Total(w, api) + AmountAt(api, e).value
    decreases |w|
  {
    var v := w + [e];
    assert forall i | 0 <= i < |w| :: v[i] == w[i];
    if |w| > 0 {
      assert AllPriced(w[1..], api) by {
        assert forall i | 0 <= i < |w[1..]| :: w[1..][i] == w[i + 1];
      }
      TotalSnoc(w[1..], e, api);
      assert v[1..] == w[1..] + [e];
    } else {
      assert v[1..] == [];
    }
  }

  /** The sum of the amounts on the lines of a reply. */
  function SumLines(lines: seq<BalanceLine>): real {
    if |lines| == 0 then 0.0 else lines[0].amount + SumLines(lines[1..])
  }

  /** The total in the reply is the sum of the amounts on its lines. */
  lemma {:induction false} TotalIsSumOfLines(w: Wallets, api: string -> ApiResponse, from: nat)
    requires AllPriced(w, api)
    ensures SumLines(Lines(w, api, from)) == Total(w, api)
    decreases |w|
  {
    if |w| > 0 {
      var lines := Lines(w, api, from);
      assert AllPriced(w[1..], api) by {
        assert forall i | 0 <= i < |w[1..]| :: w[1..][i] == w[i + 1];
      }
      assert lines[1..] == Lines(w[1..], api, from + 1);
      TotalIsSumOfLines(w[1..], api, from + 1);
    }
  }

  /** One more priced wallet extends the running total and the lines. */
  lemma LoopStep(w: Wallets, i: nat, api: string -> ApiResponse)
    requires i < |w| && AllPriced(w[..i], api) && AmountAt(api, w[i]).Some?
    ensures AllPriced(w[..i + 1], api)
    ensures Total(w[..i + 1], api) == Total(w[..i], api) + AmountAt(api, w[i]).value
    ensures Lines(w[..i + 1], api, 0) == Lines(w[..i], api, 0) +
              [BalanceLine(NumberToEmoji(i + 1), w[i].name, w[i].address, AmountAt(api, w[i]).value)]
  {
    assert w[..i + 1] == w[..i] + [w[i]];
    TotalSnoc(w[..i], w[i], api);
  }

  /** A lookup that fails after `i` priced wallets is the first failure. */
  lemma LoopFails(w: Wallets, i: nat, api: string -> ApiResponse)
    requires i < |w| && AllPriced(w[..i], api) && AmountAt(api, w[i]).None?
    ensures !AllPriced(w, api) && FirstFailure(w, api) == i
  {
    assert forall j | 0 <= j < i :: w[..i][j] == w[j];
  }

  /** `/balance`. Returns the addresses looked up, in order, and the replies sent. */
  method HandleBalance(s: State, user: UserId, api: string -> ApiResponse)
    returns (calls: seq<string>, replies: seq<Reply>)
    ensures !IsUserAllowed(user) ==> calls == [] && replies == []
    ensures IsUserAllowed(user) && |s.wallets| == 0 ==> calls == [] && replies == [NoWallets]
    ensures IsUserAllowed(user) && |s.wallets| > 0 && AllPriced(s.wallets, api) ==>
              calls == Addresses(s.wallets) &&
              replies == [Fetching, Balances(Lines(s.wallets, api, 0), Total(s.wallets, api))]
    ensures IsUserAllowed(user) && |s.wallets| > 0 && !AllPriced(s.wallets, api) ==>
              calls == Addresses(s.wallets)[..FirstFailure(s.wallets, api) + 1] &&
              replies == [Fetching, BalanceError]
  {
    calls := [];
    if !IsUserAllowed(user) {
      replies := [];
      return;
    }
    var w := s.wallets;
    if |w| == 0 {
      replies := [NoWallets];
      return;
    }
    var total := 0.0;
    var lines: seq<BalanceLine> := [];
    var i := 0;
    while i < |w|
      invariant 0 <= i <= |w|
      invariant AllPriced(w[..i], api)
      invariant calls == Addresses(w)[..i]
      invariant total == Total(w[..i], api)
      invariant lines == Lines(w[..i], api, 0)
    {
      calls := calls + [w[i].address];
      assert Addresses(w)[..i + 1] == Addresses(w)[..i] + [w[i].address];
      var amount := AmountOf(api(w[i].address));
      if amount.None? {
        LoopFails(w, i, api);
        replies := [Fetching, BalanceError];
        return;
      }
      LoopStep(w, i, api);
      total := total + amount.value;
      lines := lines + [BalanceLine(NumberToEmoji(i + 1), w[i].name, w[i].address, amount.value)];
      i := i + 1;
    }
    assert w[..i] == w;
    replies := [Fetching, Balances(lines, total)];
  }
}
