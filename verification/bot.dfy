/**
 The chat handlers of the bot as transitions of an explicit state record: the shared
 wallet registry and the process-wide adding-mode flag. Each handler takes the state
 and one already-dispatched chat event and returns the next state and the replies
 sent back, as tags standing for the reply texts.
 */
module Bot {
  import opened Options
  import opened Text
  import opened Registry

  type UserId = int

  /** The fixed allow-list of Telegram user ids. */
  const AllowedUsers: seq<UserId> := [977385108, 7540947010, 7529522452, 7649862662]

  /** `isUserAllowed`: the sender is on the allow-list. */
  predicate IsUserAllowed(user: UserId) {
    user in AllowedUsers
  }

  /** Exactly four senders are served; every other id is turned away. */
  lemma AllowedExactly(user: UserId)
    ensures IsUserAllowed(user) <==>
              user == 977385108 || user == 7540947010 || user == 7529522452 || user == 7649862662
    ensures |AllowedUsers| == 4
  {
  }

  datatype State = State(wallets: Wallets, adding: bool)

  /** The state at process start: no wallets, not adding. */
  const Initial: State := State([], false)

  /** The shape of every entry the free-text handler can store. */
  predicate WellFormedEntry(e: Entry) {
    |e.name| > 0 && NoSpace(e.name) && NoSpace(e.address) && StartsWith(e.address, 'T')
  }

  /** The registry invariant: unique names, well-formed entries. */
  predicate Valid(s: State) {
    UniqueNames(s.wallets) && forall i | 0 <= i < |s.wallets| :: WellFormedEntry(s.wallets[i])
  }

  /** One line of the `/balance` reply: index (as keycap emoji), name, address, amount. */
  datatype BalanceLine = BalanceLine(index: string, name: string, address: string, amount: real)

  datatype Reply =
    | Greeting            // the `/start` greeting and command overview
    | AccessDenied        // "Access denied" (sent by `/start` and `/add` only)
    | AddPrompt           // "Send TRC20 wallet addresses one by one ..."
    | NotAdding           // "You are not in address-adding mode ..."
    | FinishedAdding      // "Finished adding addresses."
    | FormatWarning       // "Please provide both the wallet name and ... address ..."
    | InvalidAddress      // "Invalid TRC20 wallet address ..."
    | NameExists          // "Wallet name already exists."
    | Added(name: string, address: string)
    | NoWallets           // "No wallet addresses stored ..."
    | WalletList(lines: seq<string>)
    | Removed(name: string)
    | NotFound            // "Wallet not found in the stored wallets."
    | Fetching            // "Fetching balances, please wait..."
    | Balances(entries: seq<BalanceLine>, total: real)
    | BalanceError        // "Error retrieving balances."

  datatype Step = Step(state: State, replies: seq<Reply>)

  /** `/start`: greets an allowed user, denies anyone else; the state never changes. */
  function HandleStart(s: State, user: UserId): (r: Step)
    ensures r.state == s
    ensures IsUserAllowed(user) ==> r.replies == [Greeting]
    ensures !IsUserAllowed(user) ==> r.replies == [AccessDenied]
  {
    if !IsUserAllowed(user) then Step(s, [AccessDenied]) else Step(s, [Greeting])
  }

  /** `/add`: an allowed user switches adding mode on, whatever it was; anyone else is
      denied and nothing changes. */
  function HandleAdd(s: State, user: UserId): (r: Step)
    ensures r.state.wallets == s.wallets
    ensures IsUserAllowed(user) ==> r.state.adding && r.replies == [AddPrompt]
    ensures !IsUserAllowed(user) ==> r.state == s && r.replies == [AccessDenied]
  {
    if !IsUserAllowed(user) then Step(s, [AccessDenied])
    else Step(s.(adding := true), [AddPrompt])
  }

  /** `/done`: leaves adding mode. While not adding it only warns; an unknown sender is
      ignored silently. */
  function HandleDone(s: State, user: UserId): (r: Step)
    ensures r.state.wallets == s.wallets && !(r.state.adding && !s.adding)
    ensures !IsUserAllowed(user) ==> r == Step(s, [])
    ensures IsUserAllowed(user) ==> !r.state.adding
    ensures IsUserAllowed(user) && !s.adding ==> r.replies == [NotAdding]
    ensures IsUserAllowed(user) && s.adding ==> r.replies == [FinishedAdding]
  {
    if !IsUserAllowed(user) then Step(s, [])
    else if !s.adding then Step(s, [NotAdding])
    else Step(s.(adding := false), [FinishedAdding])
  }

  /** How the free-text handler reads a message, before it looks at the registry. */
  datatype Parsed =
    | Command                                   // trimmed text starts with `/`
    | TooFewTokens                              // fewer than two whitespace-separated tokens
    | BadAddress                                // the second token does not start with `T`
    | Candidate(name: string, address: string)  // the first two tokens

  /** Trims the text, then reads it with `ParseTrimmed`. */
  function ParseMessage(text: string): (p: Parsed)
    ensures p == Command <==> StartsWith(Trim(text), '/')
    ensures p == TooFewTokens <==> !StartsWith(Trim(text), '/') && NoSpace(Trim(text))
    ensures p.Candidate? || p == BadAddress ==>
              |Split(Trim(text))| >= 2 && (p.Candidate? <==> StartsWith(Split(Trim(text))[1], 'T'))
    ensures p.Candidate? ==> p.name == Split(Trim(text))[0] && p.address == Split(Trim(text))[1]
    ensures p.Candidate? ==> WellFormedEntry(Entry(p.name, p.address))
  {
    ParseTrimmed(Trim(text))
  }

  /** Skips commands, splits on white space, keeps the first two tokens and checks that
      the second starts with `T`. */
  function ParseTrimmed(t: string): (p: Parsed)
    requires Trimmed(t)
    ensures p == Command <==> StartsWith(t, '/')
    ensures p == TooFewTokens <==> !StartsWith(t, '/') && NoSpace(t)
    ensures p.Candidate? || p == BadAddress ==>
              |Split(t)| >= 2 && (p.Candidate? <==> StartsWith(Split(t)[1], 'T'))
    ensures p.Candidate? ==> p.name == Split(t)[0] && p.address == Split(t)[1]
    ensures p.Candidate? ==> WellFormedEntry(Entry(p.name, p.address))
  {
    if StartsWith(t, '/') then Command
    else
      var parts := Split(t);
      SplitCountTrimmed(t);
      if |parts| < 2 then TooFewTokens
      else if !StartsWith(parts[1], 'T') then BadAddress
      else
        assert |parts[0]| > 0 by {
          SplitTrimmedFields(t);
        }
        Candidate(parts[0], parts[1])
  }

  /** The free-text handler: in adding mode, a message `<walletName> <address> ...` stores
      a new wallet. Commands, senders off the allow-list and text outside adding mode are
      ignored; malformed text and duplicates are reported and change nothing. */
  function HandleMessage(s: State, user: UserId, text: string): (r: Step)
    ensures r.state.adding == s.adding
    ensures !IsUserAllowed(user) || !s.adding || ParseMessage(text).Command? ==> r == Step(s, [])
    ensures Valid(s) ==> Valid(r.state)
    ensures r.state.wallets == s.wallets || Grows(s.wallets, r)
    ensures Grows(s.wallets, r) ==>
              ParseMessage(text) == Candidate(r.state.wallets[|s.wallets|].name,
                                              r.state.wallets[|s.wallets|].address)
  {
    if !IsUserAllowed(user) || !s.adding then Step(s, [])
    else Respond(s, ParseMessage(text))
  }

  /** What the free-text handler does with a parsed message in adding mode: only a
      wallet under a new name changes the registry, and it is appended at the end. */
  function Respond(s: State, p: Parsed): (r: Step)
    ensures r.state.adding == s.adding
    ensures p == Command ==> r == Step(s, [])
    ensures p == TooFewTokens <==> r.replies == [FormatWarning]
    ensures p == BadAddress <==> r.replies == [InvalidAddress]
    ensures p.Candidate? && Has(s.wallets, p.name) <==> r.replies == [NameExists]
    ensures r.state.wallets == s.wallets || Grows(s.wallets, r)
    ensures Grows(s.wallets, r) <==> p.Candidate? && !Has(s.wallets, p.name)
    ensures Grows(s.wallets, r) ==> r.state.wallets[|s.wallets|] == Entry(p.name, p.address)
    ensures !Grows(s.wallets, r) ==> r.state == s
    ensures Valid(s) && (p.Candidate? ==> WellFormedEntry(Entry(p.name, p.address))) ==> Valid(r.state)
  {
    match p
    case Command => Step(s, [])
    case TooFewTokens => Step(s, [FormatWarning])
    case BadAddress => Step(s, [InvalidAddress])
    case Candidate(name, address) =>
      if Has(s.wallets, name) then Step(s, [NameExists])
      else
        AddEffect(s, name, address);
        Step(s.(wallets := Set(s.wallets, name, address)), [Added(name, address)])
  }

  lemma AddEffect(s: State, name: string, address: string)
    requires !Has(s.wallets, name)
    ensures var r := Step(s.(wallets := Set(s.wallets, name, address)), [Added(name, address)]);
            && Grows(s.wallets, r)
            && r.state.wallets[|s.wallets|] == Entry(name, address)
            && (Valid(s) && WellFormedEntry(Entry(name, address)) ==> Valid(r.state))
  {
    var w := Set(s.wallets, name, address);
    assert w == s.wallets + [Entry(name, address)];
  }

  /** `r` adds exactly one entry, under a new name, at the end of `w`, and says so. */
  predicate Grows(w: Wallets, r: Step) {
    && |r.state.wallets| == |w| + 1
    && r.state.wallets[..|w|] == w
    && !Has(w, r.state.wallets[|w|].name)
    && r.replies == [Added(r.state.wallets[|w|].name, r.state.wallets[|w|].address)]
  }

  /** The text of one `/list` line: `walletName: address`. */
  function ListLine(e: Entry): string {
    e.name + ": " + e.address
  }

  /** `Array.from(wallets, ...)`: one line per entry, in insertion order. */
  function ListLines(w: Wallets): (lines: seq<string>)
    ensures |lines| == |w|
    ensures forall i | 0 <= i < |w| :: lines[i] == ListLine(w[i])
  {
    if |w| == 0 then [] else ListLines(w[..|w| - 1]) + [ListLine(w[|w| - 1])]
  }

  /** `/list`: every entry in insertion order, one line each, or the no-wallets notice. */
  function HandleList(s: State, user: UserId): (r: Step)
    ensures r.state == s
    ensures !IsUserAllowed(user) ==> r.replies == []
    ensures IsUserAllowed(user) && |s.wallets| == 0 ==> r.replies == [NoWallets]
    ensures IsUserAllowed(user) && |s.wallets| > 0 ==> r.replies == [WalletList(ListLines(s.wallets))]
  {
    if !IsUserAllowed(user) then Step(s, [])
    else
      var lines := ListLines(s.wallets);
      if |lines| == 0 then Step(s, [NoWallets]) else Step(s, [WalletList(lines)])
  }

  /** `/remove <walletName>`: deletes the wallet of that (trimmed) name if present,
      otherwise reports it missing; every other wallet keeps its address. */
  function HandleRemove(s: State, user: UserId, arg: string): (r: Step)
    ensures r.state.adding == s.adding
    ensures !IsUserAllowed(user) ==> r == Step(s, [])
    ensures IsUserAllowed(user) ==> !Has(r.state.wallets, Trim(arg))
    ensures forall n | n != Trim(arg) :: Get(r.state.wallets, n) == Get(s.wallets, n)
    ensures IsUserAllowed(user) && Has(s.wallets, Trim(arg)) ==> r.replies == [Removed(Trim(arg))]
    ensures IsUserAllowed(user) && !Has(s.wallets, Trim(arg)) ==> r == Step(s, [NotFound])
    ensures Valid(s) ==> Valid(r.state)
  {
    if !IsUserAllowed(user) then Step(s, [])
    else
      var name := Trim(arg);
      if Has(s.wallets, name) then
        DeleteEffect(s, name);
        Step(s.(wallets := Delete(s.wallets, name)), [Removed(name)])
      else Step(s, [NotFound])
  }

  lemma DeleteEffect(s: State, name: string)
    ensures !Has(Delete(s.wallets, name), name)
    ensures forall n | n != name :: Get(Delete(s.wallets, name), n) == Get(s.wallets, n)
    ensures Valid(s) ==> Valid(s.(wallets := Delete(s.wallets, name)))
  {
    var w := Delete(s.wallets, name);
    DeleteRemovesName(s.wallets, name);
    forall n | n != name
      ensures Get(w, n) == Get(s.wallets, n)
    {
      DeleteKeepsOthers(s.wallets, name, n);
    }
    if Valid(s) {
      DeleteUnique(s.wallets, name);
      assert forall i | 0 <= i < |w| :: w[i] in w;
    }
  }

  /** A chat event once the transport has routed it to its handler. `/balance` is not
      among them: it never changes the state (see module Aggregation). */
  datatype Event =
    | StartCmd(user: UserId)
    | AddCmd(user: UserId)
    | DoneCmd(user: UserId)
    | FreeText(user: UserId, text: string)
    | ListCmd(user: UserId)
    | RemoveCmd(user: UserId, arg: string)

  function Dispatch(s: State, ev: Event): Step {
    match ev
    case StartCmd(u) => HandleStart(s, u)
    case AddCmd(u) => HandleAdd(s, u)
    case DoneCmd(u) => HandleDone(s, u)
    case FreeText(u, text) => HandleMessage(s, u, text)
    case ListCmd(u) => HandleList(s, u)
    case RemoveCmd(u, arg) => HandleRemove(s, u, arg)
  }

  /** Handles the events one after another, each to completion. */
  function Run(s: State, events: seq<Event>): State
    decreases |events|
  {
    if |events| == 0 then s else Run(Dispatch(s, events[0]).state, events[1..])
  }
}
