/** Properties relating the handlers of module Bot to one another. */
module BotProperties {
  import opened Options
  import opened Text
  import opened Registry
  import opened Bot

  /** Every event keeps the registry invariant, so every state reachable from the
      initial one has unique names and well-formed entries. */
  lemma {:induction false} RunPreservesValid(s: State, events: seq<Event>)
    requires Valid(s)
    ensures Valid(Run(s, events))
    decreases |events|
  {
    if |events| > 0 {
      RunPreservesValid(Dispatch(s, events[0]).state, events[1..]);
    }
  }

  lemma ReachableValid(events: seq<Event>)
    ensures Valid(Run(Initial, events))
  {
    RunPreservesValid(Initial, events);
  }

  /** `/add` then `/done` by an allowed user returns to the idle mode with the
      registry untouched; a second `/done` only warns. */
  lemma AddThenDone(s: State, user: UserId)
    requires IsUserAllowed(user)
    ensures var s1 := HandleAdd(s, user).state;
            var r2 := HandleDone(s1, user);
            r2 == Step(State(s.wallets, false), [FinishedAdding]) &&
            HandleDone(r2.state, user) == Step(r2.state, [NotAdding])
  {
  }

  /** The tokens of a message that names a wallet: at least two words, separated by
      non-empty white-space runs, the first not starting with `/`. */
  predicate Tokens(words: seq<string>, seps: seq<string>) {
    |words| >= 2 && |seps| == |words| - 1 && AreWords(words) && AreSeparators(seps) &&
    words[0][0] != '/'
  }

  /** Tokens with any white space around and between them parse as name = first token,
      address = second token, or as a bad address when the second token lacks the `T`. */
  lemma ParseWords(lead: string, words: seq<string>, seps: seq<string>, trail: string)
    requires Tokens(words, seps) && AllSpace(lead) && AllSpace(trail)
    ensures ParseMessage(lead + JoinWith(words, seps) + trail) ==
              if StartsWith(words[1], 'T') then Candidate(words[0], words[1]) else BadAddress
  {
    var t := JoinWith(words, seps);
    SplitTrimmedMessage(lead, words, seps, trail);
    JoinWithStartsWithWord(words, seps);
    assert !StartsWith(t, '/');
  }

  /** `name address`, separated by one space, parses like any other spacing. */
  lemma ParseTwoWords(name: string, address: string)
    requires IsWord(name) && IsWord(address) && name[0] != '/'
    ensures ParseMessage(name + " " + address) ==
              if StartsWith(address, 'T') then Candidate(name, address) else BadAddress
  {
    SpacedPair(name, address);
    ParseWords("", [name, address], [" "], "");
  }

  lemma SpacedPair(name: string, address: string)
    requires IsWord(name) && IsWord(address) && name[0] != '/'
    ensures Tokens([name, address], [" "])
    ensures "" + JoinWith([name, address], [" "]) + "" == name + " " + address
  {
    assert [name, address][1..] == [address];
  }

  /** Dropping the tokens after the second, and the spacing, does not change the parse. */
  lemma ParseIgnoresExtraWords(lead: string, words: seq<string>, seps: seq<string>, trail: string)
    requires Tokens(words, seps) && AllSpace(lead) && AllSpace(trail)
    ensures ParseMessage(lead + JoinWith(words, seps) + trail) ==
              ParseMessage(words[0] + " " + words[1])
  {
    assert ParseMessage(lead + JoinWith(words, seps) + trail) ==
             if StartsWith(words[1], 'T') then Candidate(words[0], words[1]) else BadAddress by {
      ParseWords(lead, words, seps, trail);
    }
    assert ParseMessage(words[0] + " " + words[1]) ==
             if StartsWith(words[1], 'T') then Candidate(words[0], words[1]) else BadAddress by {
      ParseTwoWords(words[0], words[1]);
    }
  }

  /** With adding mode on, the format warning is sent exactly for a non-command message
      without white space after trimming, and then nothing changes. */
  lemma MessageNeedsTwoTokens(s: State, user: UserId, text: string)
    requires IsUserAllowed(user) && s.adding
    ensures HandleMessage(s, user, text).replies == [FormatWarning] <==>
              !StartsWith(Trim(text), '/') && NoSpace(Trim(text))
    ensures !StartsWith(Trim(text), '/') && NoSpace(Trim(text)) ==>
              HandleMessage(s, user, text).state == s
  {
    MessageOutcome(s, user, text);
  }

  /** With adding mode on, the reply to a free-text message follows from its parse alone. */
  lemma MessageOutcome(s: State, user: UserId, text: string)
    requires IsUserAllowed(user) && s.adding
    ensures var r := HandleMessage(s, user, text);
            && (ParseMessage(text) == TooFewTokens <==> r.replies == [FormatWarning])
            && (ParseMessage(text) == TooFewTokens ==> r.state == s)
  {
  }

  /** `<name> <address> ...` with any spacing: with adding mode on and a `T` address, a
      new name is appended at the end of the registry; a present name is reported and
      keeps its address; an address not starting with `T` is rejected. */
  lemma MessageWords(s: State, user: UserId, lead: string, words: seq<string>,
                     seps: seq<string>, trail: string)
    requires IsUserAllowed(user) && s.adding
    requires Tokens(words, seps) && AllSpace(lead) && AllSpace(trail)
    ensures var r := HandleMessage(s, user, lead + JoinWith(words, seps) + trail);
            && (!StartsWith(words[1], 'T') ==> r == Step(s, [InvalidAddress]))
            && (StartsWith(words[1], 'T') && Has(s.wallets, words[0]) ==> r == Step(s, [NameExists]))
            && (StartsWith(words[1], 'T') && !Has(s.wallets, words[0]) ==>
                  r == Step(s.(wallets := s.wallets + [Entry(words[0], words[1])]),
                            [Added(words[0], words[1])]))
  {
    var text := lead + JoinWith(words, seps) + trail;
    assert ParseMessage(text) ==
             if StartsWith(words[1], 'T') then Candidate(words[0], words[1]) else BadAddress by {
      ParseWords(lead, words, seps, trail);
    }
  }

  /** Adding `alice T1` then `alice T2`: the second is reported as a duplicate and `alice`
      keeps `T1`. */
  lemma AddTwiceKeepsFirst(s: State, user: UserId, name: string, a1: string, a2: string)
    requires IsUserAllowed(user) && s.adding && !Has(s.wallets, name)
    requires IsWord(name) && IsWord(a1) && IsWord(a2) && name[0] != '/'
    requires StartsWith(a1, 'T') && StartsWith(a2, 'T')
    ensures var s1 := HandleMessage(s, user, name + " " + a1).state;
            Get(s1.wallets, name) == Some(a1) &&
            HandleMessage(s1, user, name + " " + a2) == Step(s1, [NameExists])
  {
    SpacedPair(name, a1);
    SpacedPair(name, a2);
    MessageWords(s, user, "", [name, a1], [" "], "");
    var s1 := HandleMessage(s, user, name + " " + a1).state;
    assert s1.wallets == Set(s.wallets, name, a1);
    MessageWords(s1, user, "", [name, a2], [" "], "");
  }

  /** A free-text step that changes the registry is a `Grows` step (the contract of
      `HandleMessage`); after it, `/list` shows every earlier wallet as before and the
      new one on the last line. */
  lemma AddedListedLast(s: State, r: Step, user: UserId, name: string, address: string)
    requires IsUserAllowed(user) && Grows(s.wallets, r) && r.replies == [Added(name, address)]
    ensures HandleList(r.state, user).replies ==
              [WalletList(ListLines(s.wallets) + [ListLine(Entry(name, address))])]
  {
    GrowsAppends(s.wallets, r, name, address);
    ListLinesSnoc(s.wallets, Entry(name, address));
  }

  /** The same for the handler itself: after a message `<name> <address> ...` adds a
      wallet, `/list` shows the earlier wallets as before and the new one last. */
  lemma MessageListedLast(s: State, user: UserId, lead: string, words: seq<string>,
                          seps: seq<string>, trail: string)
    requires IsUserAllowed(user) && s.adding
    requires Tokens(words, seps) && AllSpace(lead) && AllSpace(trail)
    requires StartsWith(words[1], 'T') && !Has(s.wallets, words[0])
    ensures var r := HandleMessage(s, user, lead + JoinWith(words, seps) + trail);
            HandleList(r.state, user).replies ==
              [WalletList(ListLines(s.wallets) + [ListLine(Entry(words[0], words[1]))])]
  {
    MessageWords(s, user, lead, words, seps, trail);
    ListLinesSnoc(s.wallets, Entry(words[0], words[1]));
  }

  lemma ListLinesSnoc(w: Wallets, e: Entry)
    ensures ListLines(w + [e]) == ListLines(w) + [ListLine(e)]
  {
    assert (w + [e])[..|w|] == w;
  }

  lemma GrowsAppends(w: Wallets, r: Step, name: string, address: string)
    requires Grows(w, r) && r.replies == [Added(name, address)]
    ensures r.state.wallets == w + [Entry(name, address)]
  {
    var v := r.state.wallets;
    assert v == v[..|w|] + [v[|w|]];
  }

  /** `/remove` of a present name deletes exactly that entry and keeps the order of the
      rest; `/list` afterwards shows no line for that name. */
  lemma RemoveKeepsOrder(s: State, user: UserId, arg: string)
    requires IsUserAllowed(user) && Valid(s)
    ensures Has(s.wallets, Trim(arg)) ==>
              var k := IndexOf(s.wallets, Trim(arg)).value;
              var w := HandleRemove(s, user, arg).state.wallets;
              w == s.wallets[..k] + s.wallets[k + 1..] &&
              forall i | 0 <= i < |w| :: w[i].name != Trim(arg)
  {
    if Has(s.wallets, Trim(arg)) {
      DeleteAt(s.wallets, Trim(arg), IndexOf(s.wallets, Trim(arg)).value);
    }
  }
}
