/**
 * The rock-paper-scissors bot: each press of a choice button plays one round
 * against a move the bot draws at random (here: an input), the view counts
 * the user's wins, and when the game ends the message reports that count.
 */
module Rps {
  import opened Wrappers
  import opened PyStr
  import opened Session

  datatype Choice = Rock | Paper | Scissors

  /** The button's `custom_id`, which is also how the bot's pick from `["r", "p", "s"]` is spelled. */
  function CustomId(c: Choice): string
  {
    match c
    case Rock => "r"
    case Paper => "p"
    case Scissors => "s"
  }

  /** The choice a `custom_id` names; `None` for any other text. */
  function FromCustomId(id: string): (r: Option<Choice>)
    ensures r.Some? ==> CustomId(r.value) == id
    ensures r.None? ==> forall c :: CustomId(c) != id
  {
    if id == "r" then Some(Rock)
    else if id == "p" then Some(Paper)
    else if id == "s" then Some(Scissors)
    else None
  }

  /** Every choice's `custom_id` names it back. */
  lemma CustomIdRoundTrip(c: Choice)
    ensures FromCustomId(CustomId(c)) == Some(c)
  {
  }

  datatype Outcome = Draw | Win | Lose

  /** A choice's place on the cycle rock, paper, scissors; each beats the one before it, rock beats scissors. */
  function Rank(c: Choice): int
  {
    match c
    case Rock => 0
    case Paper => 1
    case Scissors => 2
  }

  /** Reference relation for the rules: `a` beats `b` when it is one step after `b` on the cycle. */
  predicate Beats(a: Choice, b: Choice)
  {
    (Rank(a) - Rank(b)) % 3 == 1
  }

  /**
   * `RPSView.play`'s if / elif / else: a draw on equal choices, a win for
   * (r, s), (p, r) and (s, p), a loss otherwise. The three cases are the
   * cycle relation and its converse.
   */
  function Play(user: Choice, bot: Choice): (o: Outcome)
    ensures o == Draw <==> user == bot
    ensures o == Win <==> Beats(user, bot)
    ensures o == Lose <==> Beats(bot, user)
  {
    if user == bot then Draw
    else if (user == Rock && bot == Scissors) || (user == Paper && bot == Rock) || (user == Scissors && bot == Paper) then Win
    else Lose
  }

  /** Swapping the players swaps a win and a loss and keeps a draw. */
  lemma PlaySwapped(a: Choice, b: Choice)
    ensures Play(a, b) == Win <==> Play(b, a) == Lose
    ensures Play(a, b) == Draw <==> Play(b, a) == Draw
  {
  }

  /** The choice `a` beats. */
  function Victim(a: Choice): Choice
  {
    match a
    case Rock => Scissors
    case Paper => Rock
    case Scissors => Paper
  }

  /** Against the bot, each choice wins against exactly one move and loses against exactly one. */
  lemma EachChoiceWinsOnce(a: Choice)
    ensures Play(a, Victim(a)) == Win
    ensures forall b :: Play(a, b) == Win ==> b == Victim(a)
    ensures Play(Victim(a), a) == Lose
    ensures forall b :: Play(b, a) == Lose ==> b == Victim(a)
  {
  }

  /** One round: the user's button and the bot's pick. */
  datatype Round = Round(user: Choice, bot: Choice)

  /** The number of rounds in `rounds` the user won. */
  function Wins(rounds: seq<Round>): nat
    decreases |rounds|
  {
    if rounds == [] then 0
    else
      var last := rounds[|rounds| - 1];
      Wins(rounds[..|rounds| - 1]) + (if Play(last.user, last.bot) == Win then 1 else 0)
  }

  /** The user cannot win more rounds than were played. */
  lemma {:induction false} WinsAtMostRounds(rounds: seq<Round>)
    ensures Wins(rounds) <= |rounds|
    decreases |rounds|
  {
    if rounds != [] {
      WinsAtMostRounds(rounds[..|rounds| - 1]);
    }
  }

  /** The win count never goes down as the game goes on. */
  lemma {:induction false} WinsMonotone(rounds: seq<Round>, k: nat)
    requires k <= |rounds|
    ensures Wins(rounds[..k]) <= Wins(rounds)
    decreases |rounds|
  {
    if k < |rounds| {
      assert rounds[..|rounds| - 1][..k] == rounds[..k];
      WinsMonotone(rounds[..|rounds| - 1], k);
    } else {
      assert rounds[..k] == rounds;
    }
  }

  /** A game of nothing but draws and losses counts no win. */
  lemma {:induction false} NoWinsWithoutWinningRound(rounds: seq<Round>)
    requires forall i :: 0 <= i < |rounds| ==> Play(rounds[i].user, rounds[i].bot) != Win
    ensures Wins(rounds) == 0
    decreases |rounds|
  {
    if rounds != [] {
      NoWinsWithoutWinningRound(rounds[..|rounds| - 1]);
    }
  }

  const Greeting: string := "Rock, Paper, Scissors!"
  const NotYourGame: string := "This isn't your game!"

  /** The final edit: `f"You won {view.user_wins} times!"`. */
  function WinReport(wins: nat): (r: string)
    ensures |r| == |Render(wins)| + 15
    ensures r[..8] == "You won " && r[8..|r| - 7] == Render(wins) && r[|r| - 7..] == " times!"
  {
    "You won " + Render(wins) + " times!"
  }

  /** The final message determines the win count: different counts never read the same. */
  lemma WinReportInjective(m: nat, n: nat)
    requires WinReport(m) == WinReport(n)
    ensures m == n
  {
    RenderInjective(m, n);
  }

  /** The calls the game makes to Discord, in order. */
  datatype Action =
    | Ephemeral(text: string)                             // `ctx.respond(text, flags=EPHEMERAL)`
    | RoundResult(user: Choice, bot: Choice, outcome: Outcome) // "<emoji> vs <emoji> - Draw! / You win! / You lose!"
    | EditMessage(message: Message)                       // `msg.edit(...)`

  /** The four buttons; "End game" stops the view. */
  datatype Button = ChoiceButton(choice: Choice) | EndGameButton

  /** `RPSView`: one user's game, 30 seconds after the last press. */
  class RPSView {
    const user: UserId
    var userWins: nat
    ghost var rounds: seq<Round>
    var phase: Phase
    var message: Message
    var actions: seq<Action>

    /**
     * `user_wins` counts the rounds won so far; the message shows the
     * greeting and the buttons until the finished game is reported, and only
     * a finished game is.
     */
    ghost predicate Valid()
      reads this
    {
      && userWins == Wins(rounds)
      && (message == Message(Some(Greeting), true)
          || (phase.Stopped? && message == Message(Some(WinReport(userWins)), false)))
      && (phase.Active? ==> message == Message(Some(Greeting), true))
    }

    /** The game for `user`, attached to the posted greeting. */
    constructor (user: UserId)
      ensures Valid()
      ensures this.user == user && userWins == 0 && rounds == []
      ensures phase == Active && message == Message(Some(Greeting), true) && actions == []
    {
      this.user := user;
      userWins := 0;
      rounds := [];
      phase := Active;
      message := Message(Some(Greeting), true);
      actions := [];
    }

    /** `view_check`: only the player may press; anyone else gets a private notice. */
    method ViewCheck(presser: UserId) returns (ok: bool)
      modifies this`actions
      ensures ok <==> presser == user
      ensures actions == old(actions) + (if ok then [] else [Ephemeral(NotYourGame)])
    {
      ok := true;
      if presser != user {
        actions := actions + [Ephemeral(NotYourGame)];
        ok := false;
      }
    }

    /** `play`: classify the round, tell the user privately, and count a win. */
    method PlayRound(choice: Choice, bot: Choice) returns (o: Outcome)
      requires Valid() && phase.Active?
      modifies this`userWins, this`rounds, this`actions
      ensures Valid()
      ensures o == Play(choice, bot)
      ensures userWins == old(userWins) + (if o == Win then 1 else 0)
      ensures userWins <= |rounds|
      ensures rounds == old(rounds) + [Round(choice, bot)]
      ensures actions == old(actions) + [RoundResult(choice, bot, o)]
    {
      o := Play(choice, bot);
      actions := actions + [RoundResult(choice, bot, o)];
      if o == Win {
        userWins := userWins + 1;
      }
      rounds := rounds + [Round(choice, bot)];
      assert rounds[..|rounds| - 1] == old(rounds);
      assert rounds[|rounds| - 1] == Round(choice, bot);
      assert Wins(rounds) == Wins(old(rounds)) + (if o == Win then 1 else 0);
      WinsAtMostRounds(rounds);
    }

    /** "End game": `self.stop()`. */
    method StopGame()
      requires Valid() && phase.Active?
      modifies this`phase
      ensures Valid() && phase == Stopped(Explicit)
    {
      phase := Stopped(Explicit);
    }

    /** The timer fires; `RPSView` keeps miru's default `on_timeout`, which changes nothing but the phase. */
    method Timeout()
      requires Valid() && phase.Active?
      modifies this`phase
      ensures Valid() && phase == Stopped(TimedOut)
    {
      phase := Stopped(TimedOut);
    }

    /**
     * A button press: ignored once the game has stopped, refused with a
     * private notice for anyone but the player, otherwise a round (against
     * the bot's pick `bot`) or the end of the game.
     */
    method Activate(presser: UserId, button: Button, bot: Choice)
      requires Valid()
      modifies this
      ensures Valid()
      ensures message == old(message)
      ensures old(phase).Stopped? ==>
        phase == old(phase) && userWins == old(userWins) && rounds == old(rounds) && actions == old(actions)
      ensures old(phase).Active? && presser != user ==>
        phase == old(phase) && userWins == old(userWins) && rounds == old(rounds)
        && actions == old(actions) + [Ephemeral(NotYourGame)]
      ensures old(phase).Active? && presser == user ==>
        match button
        case ChoiceButton(c) =>
          && phase == old(phase) && rounds == old(rounds) + [Round(c, bot)]
          && userWins == old(userWins) + (if Play(c, bot) == Win then 1 else 0)
          && actions == old(actions) + [RoundResult(c, bot, Play(c, bot))]
        case EndGameButton =>
          && phase == Stopped(Explicit) && userWins == old(userWins) && rounds == old(rounds)
          && actions == old(actions)
    {
      if phase.Stopped? {
        return;
      }
      var ok := ViewCheck(presser);
      if !ok {
        return;
      }
      assert actions == old(actions) + [];
      match button
      case ChoiceButton(c) =>
        var _ := PlayRound(c, bot);
      case EndGameButton =>
        StopGame();
    }

    /** After `view.wait()` returns: the message reports the wins and loses its buttons. */
    method ReportResult()
      requires Valid() && phase.Stopped? && message.hasComponents
      modifies this`message, this`actions
      ensures Valid()
      ensures message == Message(Some(WinReport(userWins)), false)
      ensures actions == old(actions) + [EditMessage(message)]
    {
      message := Message(Some(WinReport(userWins)), false);
      actions := actions + [EditMessage(message)];
    }
  }

  const Trigger: string := "rps"

  /** The `on_message` listener: a game for the author of a message that reads exactly "rps", and nothing otherwise. */
  method OnMessage(e: MessageEvent) returns (view: RPSView?)
    ensures view != null <==> e.isHuman && e.content == Some(Trigger)
    ensures view != null ==> fresh(view) && view.Valid() && view.user == e.author
    ensures view != null ==> view.userWins == 0 && view.phase == Active && view.actions == []
  {
    if !IsTrigger(e, Trigger) {
      return null;
    }
    view := new RPSView(e.author);
  }
}
