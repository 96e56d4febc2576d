/**
 * The bot's message handler and its start-up state. Each of the sixteen
 * commands is an independent `starts_with` test on the message content,
 * checked in source order; a matching command computes one reply and
 * sends it. Sending is modelled as listing the reply: a failed send is
 * only logged, so it changes nothing that follows.
 */
module Bot {
  import opened Wrappers
  import opened Text
  import opened Http
  import HealthChecker
  import Jokes
  import QuoteLoader

  /** `BotState`: the quotes, never written after loading. */
  datatype BotState = BotState(quotes: seq<string>)

  /** `BotState::new`: fails exactly when loading the folder fails. */
  method NewBotState(folder: QuoteLoader.Folder) returns (r: Result<BotState, QuoteLoader.IoError>)
    ensures r.Err? <==> QuoteLoader.FolderLoad(folder).Err?
    ensures r.Err? ==> r.error == QuoteLoader.FolderLoad(folder).error
    ensures r.Ok? ==> r.value.quotes == QuoteLoader.FolderLoad(folder).value
  {
    var loaded := QuoteLoader.LoadFromFolder(folder);
    match loaded
    case Err(e) =>
      r := Err(e);
    case Ok(quotes) =>
      r := Ok(BotState(quotes));
  }

  datatype Command =
    | Summon | Oracle | Joke | Health | GuySay | GaySay | Sprint | No
    | Breakfast | Pm | Qa | Abubakar | Biriyani | Failed | Talha | Jiggu

  /** The commands in the order the handler tests them. */
  const Commands: seq<Command> :=
    [Summon, Oracle, Joke, Health, GuySay, GaySay, Sprint, No,
     Breakfast, Pm, Qa, Abubakar, Biriyani, Failed, Talha, Jiggu]

  function Trigger(c: Command): string {
    match c
    case Summon => "!summon"
    case Oracle => "!oracle"
    case Joke => "!joke"
    case Health => "!health"
    case GuySay => "!guysay"
    case GaySay => "!gaysay"
    case Sprint => "!sprint"
    case No => "!no"
    case Breakfast => "!breakfast"
    case Pm => "!PM"
    case Qa => "!QA"
    case Abubakar => "!abubakar"
    case Biriyani => "!biriyani"
    case Failed => "!failed"
    case Talha => "!talha"
    case Jiggu => "!jiggu"
  }

  /** An incoming message: its text and whether it mentions anyone. */
  datatype Message = Message(content: string, hasMentions: bool)

  /**
   * A command fires on its prefix; `!summon` also needs a mention. The
   * second and third characters of a message decide which command can fire.
   */
  predicate Fires(c: Command, msg: Message)
    ensures Fires(c, msg) ==> |msg.content| >= 3 && Tag(c) == (msg.content[1], msg.content[2])
  {
    TagIsTriggerChars(c);
    StartsWith(msg.content, Trigger(c)) && (c == Summon ==> msg.hasMentions)
  }

  /** The commands of `cs` that fire on `msg`, in order. */
  function FiredCommands(cs: seq<Command>, msg: Message): (fired: seq<Command>)
    ensures forall c :: c in fired <==> c in cs && Fires(c, msg)
  {
    if |cs| == 0 then []
    else (if Fires(cs[0], msg) then [cs[0]] else []) + FiredCommands(cs[1..], msg)
  }

  /** The second and third characters of each trigger: no two commands share them. */
  function Tag(c: Command): (char, char) {
    match c
    case Summon => ('s', 'u')
    case Oracle => ('o', 'r')
    case Joke => ('j', 'o')
    case Health => ('h', 'e')
    case GuySay => ('g', 'u')
    case GaySay => ('g', 'a')
    case Sprint => ('s', 'p')
    case No => ('n', 'o')
    case Breakfast => ('b', 'r')
    case Pm => ('P', 'M')
    case Qa => ('Q', 'A')
    case Abubakar => ('a', 'b')
    case Biriyani => ('b', 'i')
    case Failed => ('f', 'a')
    case Talha => ('t', 'a')
    case Jiggu => ('j', 'i')
  }

  lemma TagIsTriggerChars(c: Command)
    ensures |Trigger(c)| >= 3 && Tag(c) == (Trigger(c)[1], Trigger(c)[2])
  {
  }

  lemma TagsDiffer(a: Command, b: Command)
    requires a != b
    ensures Tag(a) != Tag(b)
  {
  }

  /** No trigger is a prefix of another one. */
  lemma TriggersPrefixFree(a: Command, b: Command)
    requires a != b
    ensures !StartsWith(Trigger(b), Trigger(a))
  {
    TagIsTriggerChars(a);
    TagIsTriggerChars(b);
    assert Tag(a) != Tag(b);
  }

  /** Two different commands never fire on the same message. */
  lemma NotBoth(a: Command, b: Command, msg: Message)
    requires a != b
    ensures !(Fires(a, msg) && Fires(b, msg))
  {
    TagsDiffer(a, b);
  }

  predicate Distinct(cs: seq<Command>) {
    forall i, j :: 0 <= i < j < |cs| ==> cs[i] != cs[j]
  }

  /** A list of distinct commands has at most one that fires on a message. */
  lemma {:induction false} AtMostOneFires(cs: seq<Command>, msg: Message)
    requires Distinct(cs)
    ensures |FiredCommands(cs, msg)| <= 1
  {
    if |cs| > 0 {
      var rest := cs[1..];
      assert Distinct(rest) by {
        forall i, j | 0 <= i < j < |rest| ensures rest[i] != rest[j] {
          assert rest[i] == cs[i + 1] && rest[j] == cs[j + 1];
        }
      }
      AtMostOneFires(rest, msg);
      forall c | c in rest
        ensures !(Fires(cs[0], msg) && Fires(c, msg))
      {
        var k :| 0 <= k < |rest| && rest[k] == c;
        assert cs[k + 1] == c;
        NotBoth(cs[0], c, msg);
      }
      NoMemberEmpty(FiredCommands(rest, msg));
    }
  }

  lemma NoMemberEmpty<T>(s: seq<T>)
    ensures (forall x :: x !in s) ==> s == []
  {
    if |s| > 0 {
      assert s[0] in s;
    }
  }

  /** The position of each command in `Commands`. */
  function Position(c: Command): nat {
    match c
    case Summon => 0 case Oracle => 1 case Joke => 2 case Health => 3
    case GuySay => 4 case GaySay => 5 case Sprint => 6 case No => 7
    case Breakfast => 8 case Pm => 9 case Qa => 10 case Abubakar => 11
    case Biriyani => 12 case Failed => 13 case Talha => 14 case Jiggu => 15
  }

  /** The handler tests every command, each once. */
  lemma CommandsListed(c: Command)
    ensures Distinct(Commands)
    ensures c in Commands
  {
    assert |Commands| == 16;
    forall i | 0 <= i < 16
      ensures Position(Commands[i]) == i
    {
    }
    assert Commands[Position(c)] == c;
  }

  /** Among distinct commands, a firing one is the only one that fires. */
  lemma FiredAlone(cs: seq<Command>, c: Command, msg: Message)
    requires Distinct(cs) && c in cs && Fires(c, msg)
    ensures FiredCommands(cs, msg) == [c]
  {
    AtMostOneFires(cs, msg);
    assert c in FiredCommands(cs, msg);
  }

  /** `"!nope"` fires `!no` and nothing else: the test is a prefix test. */
  lemma NopeFiresNo(msg: Message)
    requires msg.content == "!nope"
    ensures FiredCommands(Commands, msg) == [No]
  {
    CommandsListed(No);
    assert Fires(No, msg);
    FiredAlone(Commands, No, msg);
  }

  /** `"!pm"` fires nothing: the test is case-sensitive and `!PM` is upper case. */
  lemma LowerPmFiresNothing(msg: Message)
    requires msg.content == "!pm"
    ensures FiredCommands(Commands, msg) == []
  {
    forall c
      ensures !Fires(c, msg)
    {
      TagIsTriggerChars(c);
      assert Tag(c).0 != msg.content[1];
    }
    NoMemberEmpty(FiredCommands(Commands, msg));
  }

  /** What the collaborators of the handler return while it handles one message. */
  datatype World = World(
    generate: nat -> seq<string>,
    oracleCount: nat,
    funnyPick: nat,
    jokeResponse: HttpOutcome<seq<Jokes.Joke>>,
    env: map<string, string>,
    web: string -> HttpOutcome<string>,
    say: seq<string> -> string)

  /**
   * `generate(n)` yields n emojis, the oracle draws its count from 5..=15,
   * and `send_funny` draws an index of its list.
   */
  ghost predicate ValidWorld(w: World) {
    && (forall n: nat :: |w.generate(n)| == n)
    && 5 <= w.oracleCount <= 15
    && w.funnyPick < |HealthChecker.FunnyMessages|
  }

  function StaticText(c: Command): string
    requires c !in {Summon, Oracle, Joke, Health, GuySay, Biriyani}
  {
    match c
    case GaySay => "ব্রো, এসো তোমাকে ব্লেম দেই <3 "
    case Sprint => "Sprint in the AI world means, really fast."
    case No => "The no word has deep philosophical meaning to me. It tells me that I can tell anyone, no. Nobody can stop me."
    case Breakfast => "I had granola and corn flakes this breakfast, but decided to add AI on top of it anyway."
    case Pm => "LONG LIVE THE PM!"
    case Qa => "বাগ পাইসেন? আচ্ছা লিনিয়ারে টিকেট দেন। দেখতেসি বিষয়টা।"
    case Abubakar => "All I want for Eid is chunks!"
    case Failed => "Don't fix it just revert!"
    case Talha => "আপডেট ছাড়া আরেকবার ডাকলে বেতন 10% মাইনাস"
    case Jiggu => "লোকে বলে আমি প্রোজেক্ট ম্যানেজার কিন্তু আমি আসলে আস্ত অপদার্থ, মুনিয়ার মা, প্লেটে আরো থ্যাপলা দাও, খাই।"
  }

  const BiriyaniUrl: string := "https://www.youtube.com/watch?v=xvFZjo5PgG0"

  function JokeText(j: Jokes.Joke): string {
    "🎭 **" + j.setup + "**\n💡 _" + j.punchline + "_"
  }

  /**
   * The reply command `c` sends, or None when it only logs an error: that
   * happens exactly when the joke fetch or the health check fails, never for
   * lack of a first joke.
   */
  function Reply(c: Command, msg: Message, state: BotState, w: World): (r: Option<string>)
    requires ValidWorld(w)
    ensures r.None? <==>
              || (c == Joke && Jokes.FetchJoke(w.jokeResponse).Err?)
              || (c == Health && HealthChecker.CheckHealth(msg.content, w.funnyPick, w.env, w.web).reply.Err?)
  {
    match c
    case Summon => Some(Join(w.generate(7), " "))
    case Oracle => Some(Join(w.generate(w.oracleCount), " "))
    case Joke =>
      (match Jokes.FetchJoke(w.jokeResponse)
       case Ok(jokes) => if |jokes| > 0 then Some(JokeText(jokes[0])) else None
       case Err(_) => None)
    case Health =>
      (match HealthChecker.CheckHealth(msg.content, w.funnyPick, w.env, w.web).reply
       case Ok(text) => Some(text)
       case Err(_) => None)
    case GuySay => Some(w.say(state.quotes))
    case Biriyani => Some("🎭 💡 " + BiriyaniUrl + "\n")
    case _ => Some(StaticText(c))
  }

  function ReplySeq(reply: Option<string>): seq<string> {
    match reply
    case Some(text) => [text]
    case None => []
  }

  /** The replies for the commands `cs`, in order. */
  function Collect(cs: seq<Command>, msg: Message, state: BotState, w: World): (replies: seq<string>)
    requires ValidWorld(w)
    ensures |replies| <= |cs|
  {
    if |cs| == 0 then []
    else ReplySeq(Reply(cs[0], msg, state, w)) + Collect(cs[1..], msg, state, w)
  }

  /** `Handler::message`: the replies sent for one message, in order. */
  function HandleMessage(msg: Message, state: BotState, w: World): (replies: seq<string>)
    requires ValidWorld(w)
    ensures |replies| <= 1
  {
    CommandsListed(Summon);
    AtMostOneFires(Commands, msg);
    Collect(FiredCommands(Commands, msg), msg, state, w)
  }

  /** When command `c` fires, the handler sends exactly the reply of `c`, if it has one. */
  lemma HandleSendsReplyOf(c: Command, msg: Message, state: BotState, w: World)
    requires ValidWorld(w)
    requires Fires(c, msg)
    ensures HandleMessage(msg, state, w) == ReplySeq(Reply(c, msg, state, w))
  {
    CommandsListed(c);
    FiredAlone(Commands, c, msg);
    CollectOne(c, msg, state, w);
  }

  lemma CollectOne(c: Command, msg: Message, state: BotState, w: World)
    requires ValidWorld(w)
    ensures Collect([c], msg, state, w) == ReplySeq(Reply(c, msg, state, w))
  {
    assert [c][1..] == [];
  }

  /** A message no trigger matches gets no reply. */
  lemma HandleIgnoresOtherMessages(msg: Message, state: BotState, w: World)
    requires ValidWorld(w)
    requires forall c :: !Fires(c, msg)
    ensures HandleMessage(msg, state, w) == []
  {
    NoMemberEmpty(FiredCommands(Commands, msg));
  }

  /**
   * `!summon` with a mention sends seven generated emojis joined by single
   * spaces; splitting the reply on whitespace gives them back.
   */
  lemma SummonReply(msg: Message, state: BotState, w: World)
    requires ValidWorld(w)
    requires StartsWith(msg.content, "!summon") && msg.hasMentions
    requires forall i :: 0 <= i < 7 ==> IsWord(w.generate(7)[i])
    ensures HandleMessage(msg, state, w) == [Join(w.generate(7), " ")]
    ensures SplitWhitespace(HandleMessage(msg, state, w)[0]) == w.generate(7)
    ensures |SplitWhitespace(HandleMessage(msg, state, w)[0])| == 7
  {
    HandleSendsReplyOf(Summon, msg, state, w);
  }

  /** `!summon` without a mention sends nothing. */
  lemma SummonNeedsMention(msg: Message, state: BotState, w: World)
    requires ValidWorld(w)
    requires StartsWith(msg.content, "!summon") && !msg.hasMentions
    ensures HandleMessage(msg, state, w) == []
  {
    forall c ensures !Fires(c, msg) {
      if c != Summon {
        NotBoth(c, Summon, Message(msg.content, true));
      }
    }
    HandleIgnoresOtherMessages(msg, state, w);
  }

  /** `!oracle` sends between 5 and 15 generated emojis joined by single spaces. */
  lemma OracleReply(msg: Message, state: BotState, w: World)
    requires ValidWorld(w)
    requires StartsWith(msg.content, "!oracle")
    requires forall i :: 0 <= i < w.oracleCount ==> IsWord(w.generate(w.oracleCount)[i])
    ensures HandleMessage(msg, state, w) == [Join(w.generate(w.oracleCount), " ")]
    ensures 5 <= |SplitWhitespace(HandleMessage(msg, state, w)[0])| <= 15
  {
    HandleSendsReplyOf(Oracle, msg, state, w);
  }

  /**
   * `!joke` sends the first fetched joke, and sends nothing when the fetch
   * fails; a successful fetch always has a first joke.
   */
  lemma JokeReply(msg: Message, state: BotState, w: World)
    requires ValidWorld(w)
    requires StartsWith(msg.content, "!joke")
    ensures var fetched := Jokes.FetchJoke(w.jokeResponse);
            HandleMessage(msg, state, w) == if fetched.Ok? then [JokeText(fetched.value[0])] else []
  {
    HandleSendsReplyOf(Joke, msg, state, w);
  }

  /** `!health` sends what the health check returns for the whole message, or nothing on a transport error. */
  lemma HealthReply(msg: Message, state: BotState, w: World)
    requires ValidWorld(w)
    requires StartsWith(msg.content, "!health")
    ensures var run := HealthChecker.CheckHealth(msg.content, w.funnyPick, w.env, w.web);
            HandleMessage(msg, state, w) == if run.reply.Ok? then [run.reply.value] else []
  {
    HandleSendsReplyOf(Health, msg, state, w);
  }

  /** `!guysay` sends the rendering of the loaded quotes. */
  lemma GuySayReply(msg: Message, state: BotState, w: World)
    requires ValidWorld(w)
    requires StartsWith(msg.content, "!guysay")
    ensures HandleMessage(msg, state, w) == [w.say(state.quotes)]
  {
    HandleSendsReplyOf(GuySay, msg, state, w);
  }

  /** The fixed-text commands send their text verbatim; `!biriyani` sends its link. */
  lemma FixedReplies(c: Command, msg: Message, state: BotState, w: World)
    requires ValidWorld(w)
    requires c !in {Summon, Oracle, Joke, Health, GuySay}
    requires StartsWith(msg.content, Trigger(c))
    ensures HandleMessage(msg, state, w) ==
              if c == Biriyani then ["🎭 💡 " + BiriyaniUrl + "\n"] else [StaticText(c)]
  {
    assert Fires(c, msg);
    HandleSendsReplyOf(c, msg, state, w);
  }
}
