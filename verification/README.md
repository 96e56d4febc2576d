# the-bot: a Dafny model of its command logic

`the-bot` is a Discord bot. Each incoming message is matched against sixteen
case-sensitive `!command` prefixes. A matching command computes one reply:
generated emoji strings, a joke from a public API, a health report for a
configured service endpoint, a cow-rendered quote, or a fixed text. Quotes
are loaded once at start-up from a folder of fortune files.

This project models the deterministic decision logic behind those replies.
HTTP results, environment variables, random draws, emoji generation and
fortune-file parsing become plain inputs:

- `wrappers.dfy` (`Wrappers`): `Option` and `Result`.
- `text.dfy` (`Text`): `split_whitespace`, `join`, `starts_with` and case
  mapping. Splitting words joined by single spaces gives them back.
- `http.dfy` (`Http`): status codes, an `HttpOutcome` datatype for one GET
  (transport failure, or a status code, its canonical reason and optionally
  the decoded body), and the `Display` text of a status. The http crate's
  `Display` for a status prints the canonical reason for the code, or
  "<unknown status code>", whatever phrase the server sent. So `reason` is
  that canonical text and not the server's phrase.
- `health_checker.dfy` (`HealthChecker`): `parse_message`, the URL variable
  key, `format_response`, `send_funny` and `check_health`. A reader
  `ParseReport` recovers the service, environment, shown status and verdict
  from a rendered report, so report contents are stated as a round trip.
- `jokes.dfy` (`Jokes`): `Joke`, `JokeError` and `fetch_joke`.
- `api_checker.dfy` (`ApiChecker`): `check_backend_health`, with a reader
  `ParseVerdict` for its replies.
- `quote_loader.dfy` (`QuoteLoader`): `load_from_file` and
  `load_from_folder`. The folder method is a loop; a ghost right fold
  `Aggregate` is the reference it is proved equal to.
- `bot.dfy` (`Bot`): `BotState::new`, the sixteen triggers, and
  `Handler::message` as a function from a message, the state and the
  collaborators' results (`World`) to the list of replies sent.

## Behaviour worth noting

- A health report shows the status upper-cased, whether it is healthy or
  not (src/health_checker.rs:31).
- No trigger is a prefix of another (src/bot.rs:79-384). So one message fires
  at most one command and gets at most one reply (`Bot.AtMostOneFires`).
- `fetch_joke` uses `error_for_status`, which fails on 4xx and 5xx codes
  only (src/jokes.rs:22). Other non-2xx codes go on to decoding. The health
  and backend checks test `is_success`, which means 2xx
  (src/health_checker.rs:117, src/api_checker.rs:18).
- A malformed `!health` command gets one of ten canned messages drawn at
  random, and no usage hint (src/health_checker.rs:73-76 and 82-83).

`split_whitespace` is modelled with the full Unicode White_Space set, as
Rust defines it. The default joke text is kept byte for byte as the source
spells it, including its mis-encoded Bengali.

## Model

| member | source | states |
|---|---|---|
| Text.SplitWhitespace | src/health_checker.rs:70 | every token is non-empty and free of whitespace |
| Text.Join | src/bot.rs:90-92 | when every item is a non-empty whitespace-free word and the separator is one space, splitting the result gives back exactly the items |
| Text.StartsWith | src/bot.rs:79 | a string starts with a prefix exactly when it is at least as long and agrees with the prefix at every position of the prefix |
| Text.IsOkSpellings | src/health_checker.rs:19 | a status lower-cases to "ok" exactly when it is one of "ok", "oK", "Ok", "OK" |
| Http.CodeDigitsRoundTrip | src/health_checker.rs:137 | the status text begins with three decimal digits that read back as the code |
| Http.StatusText | src/health_checker.rs:137 | the text is four characters longer than the reason with a space in fourth place; its first three characters read back as the code, and the text never lower-cases to "ok", so it never counts as healthy |
| HealthChecker.SendFunny | src/health_checker.rs:45-66 | the reply is one of the ten canned messages and is never empty |
| HealthChecker.ParseMessage | src/health_checker.rs:68-90 | a failure carries the drawn canned message; a success names a known service and a one-word environment |
| HealthChecker.ParseMessageAccepts | src/health_checker.rs:70-89 | parsing succeeds exactly when there are three tokens and the second is "backend" or "frontend" (case-sensitive); then service and environment are tokens 2 and 3 unchanged |
| HealthChecker.ParseIgnoresCommandWord | src/health_checker.rs:79-80 | swapping the first word for any other word does not change the parse |
| HealthChecker.ParseJoined | src/health_checker.rs:68-90 | a command written as three space-separated words parses back to its service and environment |
| HealthChecker.ParseBackendDev | tests/health_checker_tests.rs:25 | "!health backend dev" parses to backend / dev |
| HealthChecker.UrlKey | src/health_checker.rs:101-105 | the key is five characters longer than service and environment together, ends in "_URL", and holds no lower-case ASCII letter |
| HealthChecker.UrlKeyExample | tests/health_checker_tests.rs:4-5 | backend / dev gives the variable BACKEND_DEV_URL |
| HealthChecker.UrlKeyDetermines | src/health_checker.rs:101-105 | for services without '_', equal keys mean equal upper-cased services and environments |
| HealthChecker.HeaderSelects | src/health_checker.rs:19-23 | the first line of a report tells whether it is the healthy one |
| HealthChecker.ReportBodyRoundTrip | src/health_checker.rs:25-42 | the service, environment and shown status can be read back from the body of a report |
| HealthChecker.ReportRoundTrip | src/health_checker.rs:25-42 | a header followed by a body reads back as that verdict, service, environment and shown status, provided service and environment are one word each |
| HealthChecker.FormatResponse | src/health_checker.rs:18-43 | for one-word service and environment, the report reads back as healthy exactly when the status lower-cases to "ok", naming the service, the environment and the upper-cased status |
| HealthChecker.ReadWordThenInverse | src/health_checker.rs:26 | a word and separator that are read off a text put back together give that text |
| HealthChecker.ParseReportBodyInverse | src/health_checker.rs:26 | any text whose body reads successfully is exactly the body rendered from what was read |
| HealthChecker.ParseReportInverse | src/health_checker.rs:25-42 | any text that reads as a report is exactly the report rendered from what was read |
| HealthChecker.ReportDeterminesText | src/health_checker.rs:18-43 | a text that reads as the report for a service, environment and status is exactly `format_response` of them, so the reader and the formatter are inverse both ways |
| HealthChecker.ReportEndsInFence | src/health_checker.rs:26 | every report ends with a code fence |
| HealthChecker.OtherRepliesAreNotReports | src/health_checker.rs:47-58 | the canned, not-found and invalid-JSON replies never read as a report |
| HealthChecker.CheckHealth | src/health_checker.rs:92-139 | a GET happens exactly when the command parses and its key is set, on the URL the key holds; the result is an error exactly when that GET fails in transport |
| HealthChecker.MalformedCommandReply | src/health_checker.rs:95-98 | a malformed command replies with the drawn canned message, with no lookup and no GET |
| HealthChecker.MissingKeyReply | src/health_checker.rs:106-111 | an unset key replies with the fixed not-found message and makes no GET |
| HealthChecker.DecodedStatusReply | src/health_checker.rs:117-128 | a 2xx response with a status field replies with a report that is healthy exactly when the status is "ok" in any case |
| HealthChecker.UndecodableReply | src/health_checker.rs:129-131 | a 2xx response without a decodable status replies "Invalid JSON response from the endpoint" |
| HealthChecker.ErrorStatusReply | src/health_checker.rs:134-138 | a non-2xx response replies with an unhealthy report that shows the upper-cased status text, whatever the body |
| HealthChecker.HealthyEndToEnd | tests/health_checker_tests.rs:10-30 | "!health backend dev" against a 200 {"status":"ok"} endpoint GETs the configured URL and replies with a healthy report for backend / dev showing OK |
| Jokes.FetchJoke | src/jokes.rs:19-38 | fails exactly on a transport error, a 4xx/5xx status or an undecodable body; a success is never empty and is the decoded array, or the default joke alone when that array is empty |
| Jokes.ErrorStatusFails | src/jokes.rs:22 | a 4xx/5xx status fails with the status error whatever the body, with no default joke |
| Jokes.EmptyArrayYieldsDefault | src/jokes.rs:26-34 | an empty array yields exactly one joke, with id 0, type "default", and setup equal to punchline |
| ApiChecker.Render | src/api_checker.rs:18-36 | each of the four replies reads back as the verdict it renders, so no two verdicts share a reply |
| ApiChecker.ParseVerdictInverse | src/api_checker.rs:18-36 | any text that reads as a verdict is exactly the rendering of that verdict |
| ApiChecker.Classify | src/api_checker.rs:16-36 | error only on transport failure; running exactly for a 2xx status field equal to "ok" in any case; any other 2xx status field is reported as a bad field in its original case, and a bad field only arises that way; invalid JSON exactly for an undecodable 2xx body; a non-2xx code gives its status text |
| ApiChecker.CheckBackendHealth | src/api_checker.rs:10-37 | the GET goes to BACKEND_URL, or to the hint sentence when it is unset; the result is an error exactly when the GET fails in transport; otherwise the reply reads back as the classified verdict |
| ApiChecker.HintIsNeverAReply | src/api_checker.rs:12-16 | the hint sentence is never returned as the reply |
| QuoteLoader.LoadFromFile | src/quote_loader.rs:3-15 | succeeds exactly when the file parses, returning its quotes unchanged; a failure is a NotFound error naming the path |
| QuoteLoader.AggregateAppend | src/quote_loader.rs:23-31 | scanning one more entry extends the scan: a failing entry ends it with its error, any other entry appends its quotes |
| QuoteLoader.LoadFromFolder | src/quote_loader.rs:18-39 | the loop's result equals the reference fold: NotFound for a non-directory, the listing error, or the fold over the entries |
| QuoteLoader.AggregateOkIff | src/quote_loader.rs:23-31 | a folder scan succeeds exactly when no entry fails |
| QuoteLoader.AggregateConcatenates | src/quote_loader.rs:25-27 | a successful scan is the concatenation of the regular files' quote lists in listing order |
| QuoteLoader.AggregateFirstFailure | src/quote_loader.rs:24-28 | a failed scan fails with the error of one of the entries, with no partial list |
| QuoteLoader.AggregateStopsAtFailure | src/quote_loader.rs:28 | after a failing entry, nothing later in the listing affects the result |
| QuoteLoader.FlattenLength | src/quote_loader.rs:27 | the concatenation's length is the sum of the per-file lengths |
| QuoteLoader.SkipsNonFiles | src/quote_loader.rs:25 | an entry that is not a regular file changes nothing |
| QuoteLoader.TwoFilesOfTwo | tests/quote_loader_tests.rs:35-43 | two files of two quotes each load four quotes |
| QuoteLoader.EmptyFolder | src/quote_loader.rs:19-32 | an empty directory loads no quotes and no error |
| QuoteLoader.MissingFolderFails | src/quote_loader.rs:33-37 | a path that is not a directory fails with a NotFound error |
| Bot.NewBotState | src/bot.rs:22-28 | fails exactly when loading the folder fails, with that error; otherwise the state holds exactly the loaded quotes |
| Bot.Fires | src/bot.rs:79-384 | a command fires only on a message of at least three characters whose second and third characters are the command's tag, so those two characters decide which command can fire |
| Bot.FiredCommands | src/bot.rs:75-386 | a command is selected exactly when it is in the list and fires on the message |
| Bot.TriggersPrefixFree | src/bot.rs:79-384 | no trigger literal is a prefix of another |
| Bot.NotBoth | src/bot.rs:79-384 | two different commands never fire on the same message |
| Bot.AtMostOneFires | src/bot.rs:75-386 | in a list of distinct commands, at most one fires on any message |
| Bot.CommandsListed | src/bot.rs:75-386 | the handler tests every command, each exactly once |
| Bot.NopeFiresNo | src/bot.rs:275 | "!nope" fires `!no` and nothing else |
| Bot.LowerPmFiresNothing | src/bot.rs:299 | "!pm" fires no command |
| Bot.Reply | src/bot.rs:79-384 | a command has no reply exactly when it is `!joke` and the fetch fails, or `!health` and the health check fails; every other command always sends a reply |
| Bot.HandleMessage | src/bot.rs:75-386 | one message gets at most one reply |
| Bot.HandleSendsReplyOf | src/bot.rs:75-386 | when a command fires, the handler sends exactly that command's reply, if it has one |
| Bot.HandleIgnoresOtherMessages | src/bot.rs:75-386 | a message no trigger matches gets no reply |
| Bot.SummonReply | src/bot.rs:79-111 | "!summon" with a mention sends the seven generated emojis joined by single spaces; splitting the reply gives them back |
| Bot.SummonNeedsMention | src/bot.rs:79 | "!summon" without a mention sends nothing |
| Bot.OracleReply | src/bot.rs:114-149 | "!oracle" sends the generated emojis joined by single spaces, between 5 and 15 of them |
| Bot.JokeReply | src/bot.rs:152-196 | "!joke" sends the first fetched joke as setup and punchline markup, and nothing when the fetch fails; the "no jokes" branch is never taken |
| Bot.HealthReply | src/bot.rs:198-222 | "!health" passes the whole message to the health check and sends its reply verbatim, or nothing on error |
| Bot.GuySayReply | src/bot.rs:225-244 | "!guysay" sends the rendering of the loaded quotes |
| Bot.FixedReplies | src/bot.rs:247-384 | every fixed-text command sends its literal text verbatim; "!biriyani" sends the video link between the two emojis and a trailing newline |

## Left out

- Discord I/O: the gateway, `ready`, `run`, and the channel sends. A reply is
  modelled as an element of the list `HandleMessage` returns. A failed send
  is only logged (src/bot.rs:58-66), so it cannot change anything later.
- Logging through `tracing`: it has no effect on results.
- Concurrency: tokio, `Arc` and `RwLock`. The quotes are only read after
  start-up.
- reqwest and serde: one GET is an `HttpOutcome` input. A body that cannot be
  read or decoded is `decoded == None`. Request-error details are reduced to
  `Transport`, `BadStatus` and `Undecodable`.
- The environment is a `map`. A variable that is set but not valid Unicode
  counts as unset here, as `env::var` reports it as an error.
- Randomness: the `send_funny` index and the oracle count are `World` fields
  whose ranges `ValidWorld` requires.
- `src/emoji_generator.rs` is not part of this model. `generate(n)` is an
  input function assumed to return `n` strings.
- The fortune-file parser is not part of this model. Each file's parse
  result is an input.
- `src/guysay.rs` is a foreign call, modelled as the `say` input. Its
  one-argument signature does not match the two-argument call at
  src/bot.rs:234.
- `src/clipboard.rs` (system clipboard I/O) and `src/main.rs` (command-line
  plumbing) are left out.
- The `JokeError::NoJokes` variant used in the test at src/jokes.rs:126-129
  does not exist, so that test is left out.
- Error messages: the `Debug`-formatted path in the loader's errors is
  reduced to the path itself.
- The `to_str().unwrap()` panic on a non-UTF-8 entry path
  (src/quote_loader.rs:26) is left out, because paths are strings here.
- `Joke.id` is a `nat`. The `usize` bound is not modelled, because the
  source never does arithmetic on it.
- Text.Upper: maps ASCII letters only. Rust's `to_uppercase` also maps
  non-ASCII letters, and some of them change the length.
- Text.Lower: maps ASCII letters only. So `IsOk` misses a status such as
  "o" followed by KELVIN SIGN, which Rust lower-cases to "ok".
- Http.StatusText: the canonical-reason table of the http crate is not
  written out. `reason` is an input, taken to be the canonical reason for
  `code`.
- ApiChecker.CheckBackendHealth: `web` may return any outcome for any URL,
  including the hint sentence. In the program, reqwest rejects that sentence
  as a URL before any I/O, so with BACKEND_URL unset `check_backend_health`
  always returns an error. A `web` that is faithful to reqwest answers
  `TransportFailed` for it.
- Jokes.FetchJoke: a decoded array is a whole input. The model does not say
  which JSON documents decode.
