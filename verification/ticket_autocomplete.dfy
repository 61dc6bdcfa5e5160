/**
 * The ticket autocomplete resolver (`TicketCompleter.run`): choose the open/closed scope
 * from the command name, filter the requester's tickets against the typed text, keep the
 * first 25 and render each as a `{name, value}` suggestion.
 *
 * The database queries become inputs: `store` is the ticket table in the order the query
 * returns it and `locale` is the guild's configured locale. The foreign libraries (the
 * regular-expression engine, the decryption helper, date formatting and the emoji table)
 * are the fields of `Externals`, about which nothing is assumed.
 */
module TicketAutocomplete {
  import opened Wrappers
  import opened Decimal
  import opened Sequences

  datatype Category = Category(emoji: string, name: string)

  /** A ticket row with its category projection; `topic` is stored encrypted. */
  datatype Ticket = Ticket(
    id: string,
    number: nat,
    topic: Option<string>,
    createdAt: int,
    createdById: string,
    guildId: string,
    open: bool,
    category: Category)

  /** One autocomplete suggestion: the label shown and the ticket id returned on selection. */
  datatype Choice = Choice(name: string, value: string)

  /** What makes the resolver throw instead of responding. */
  datatype SearchError = MalformedPattern | DecryptionFailed

  /** The foreign calls the resolver makes, as uninterpreted total functions. */
  datatype Externals = Externals(
    compiles: string -> bool,            // `new RegExp(pattern, 'i')` does not throw
    matches: (string, string) -> bool,   // `text.match(new RegExp(pattern, 'i'))` is not null
    decrypt: string -> Option<string>,   // the decryption helper; None when it throws
    shortDate: (string, int) -> string,  // `new Date(t).toLocaleString(locale, {dateStyle: 'short'})`
    hasEmoji: string -> bool,            // the emoji table knows the token
    emojiGlyph: string -> string)        // the emoji table's glyph for the token

  function Min(a: nat, b: nat): (m: nat)
    ensures m <= a && m <= b && (m == a || m == b)
  {
    if a <= b then a else b
  }

  /** The commands that act on open tickets; every other command searches closed ones. */
  const OpenCommands: seq<string> := ["add", "close", "force-close", "remove"]

  /** The platform's limit on the number of autocomplete suggestions. */
  const MaxChoices: nat := 25

  /** The number of decrypted topic characters shown in a label. */
  const TopicPreviewLength: nat := 50

  /** The `open` value of the ticket query for a command. */
  function FetchesOpen(commandName: string): (open: bool)
    ensures open <==> commandName == "add" || commandName == "close"
                      || commandName == "force-close" || commandName == "remove"
  {
    commandName in OpenCommands
  }

  predicate InScope(t: Ticket, requesterId: string, guildId: string, open: bool) {
    t.createdById == requesterId && t.guildId == guildId && t.open == open
  }

  /** The ticket query: the requester's tickets in the guild with the given open flag, in table order. */
  function FetchTickets(store: seq<Ticket>, requesterId: string, guildId: string, open: bool): (tickets: seq<Ticket>)
    ensures IsSubsequence(tickets, store)
    ensures forall i :: 0 <= i < |tickets| ==> tickets[i] in store && InScope(tickets[i], requesterId, guildId, open)
    ensures forall i :: 0 <= i < |store| && InScope(store[i], requesterId, guildId, open) ==> store[i] in tickets
  {
    Filter(store, t => InScope(t, requesterId, guildId, open))
  }

  function ShortDate(t: Ticket, locale: string, ext: Externals): string {
    ext.shortDate(locale, t.createdAt)
  }

  /**
   * The filter's test: the pattern matches the decimal number, the topic AS STORED
   * (the ciphertext, not the decrypted topic) when there is one, or the short date.
   */
  predicate Matches(pattern: string, locale: string, ext: Externals, t: Ticket) {
    ext.matches(pattern, DecimalString(t.number))
    || (t.topic.Some? && ext.matches(pattern, t.topic.value))
    || ext.matches(pattern, ShortDate(t, locale, ext))
  }

  /**
   * The `options` of the resolver. An empty typed value keeps every ticket. Otherwise the
   * pattern is compiled inside the filter callback, so it throws only when there is at
   * least one ticket to test.
   */
  function FilterOptions(value: string, locale: string, ext: Externals, tickets: seq<Ticket>)
    : (r: Result<seq<Ticket>, SearchError>)
    ensures value == "" ==> r == Success(tickets)
    ensures r.Failure? <==> value != "" && tickets != [] && !ext.compiles(value)
    ensures r.Failure? ==> r.error == MalformedPattern
    ensures r.Success? ==> IsSubsequence(r.value, tickets)
    ensures r.Success? && value != "" ==>
              (forall i :: 0 <= i < |r.value| ==> r.value[i] in tickets && Matches(value, locale, ext, r.value[i]))
              && (forall i :: 0 <= i < |tickets| && Matches(value, locale, ext, tickets[i]) ==> tickets[i] in r.value)
  {
    if value == "" then
      SubsequenceReflexive(tickets);
      Success(tickets)
    else if tickets != [] && !ext.compiles(value) then
      Failure(MalformedPattern)
    else
      Success(Filter(tickets, t => Matches(value, locale, ext, t)))
  }

  /**
   * The topic part of a label: empty when the topic is absent or empty, otherwise "| "
   * followed by at most 50 characters of the decrypted topic, with no ellipsis.
   */
  function TopicPreview(topic: Option<string>, ext: Externals): (r: Result<string, SearchError>)
    ensures topic.None? || topic == Some("") ==> r == Success("")
    ensures topic.Some? && topic.value != "" ==> (r.Success? <==> ext.decrypt(topic.value).Some?)
    ensures topic.Some? && topic.value != "" && r.Success? ==>
              var plain := ext.decrypt(topic.value).value;
              2 <= |r.value| <= 2 + TopicPreviewLength && r.value[..2] == "| "
              && r.value[2..] <= plain
              && |r.value| == 2 + Min(TopicPreviewLength, |plain|)
  {
    match topic
    case None => Success("")
    case Some(cipher) =>
      if cipher == "" then Success("")
      else
        match ext.decrypt(cipher)
        case None => Failure(DecryptionFailed)
        case Some(plain) => Success("| " + plain[..Min(TopicPreviewLength, |plain|)])
  }

  /** The category part of a label: glyph, space and name when the emoji is known, else the bare name. */
  function CategoryLabel(c: Category, ext: Externals): (text: string)
    ensures |text| >= |c.name| && text[|text| - |c.name|..] == c.name
    ensures !ext.hasEmoji(c.emoji) ==> text == c.name
    ensures ext.hasEmoji(c.emoji) ==>
              var glyph := ext.emojiGlyph(c.emoji);
              |text| == |glyph| + 1 + |c.name| && text[..|glyph|] == glyph && text[|glyph|] == ' '
  {
    if ext.hasEmoji(c.emoji) then ext.emojiGlyph(c.emoji) + " " + c.name else c.name
  }

  /** Everything in a label before the space that precedes the topic preview. */
  function LabelHead(t: Ticket, locale: string, ext: Externals): string {
    CategoryLabel(t.category, ext) + " #" + DecimalString(t.number) + " - " + ShortDate(t, locale, ext)
  }

  /** The suggestion for one ticket: `<category> #<number> - <date> <preview>` and the ticket id. */
  function RenderChoice(t: Ticket, locale: string, ext: Externals): (r: Result<Choice, SearchError>)
    ensures r.Success? <==> TopicPreview(t.topic, ext).Success?
    ensures r.Failure? ==> r.error == DecryptionFailed
    ensures r.Success? ==>
              var head := LabelHead(t, locale, ext);
              r.value.value == t.id
              && |r.value.name| > |head| && r.value.name[..|head| + 1] == head + " "
              && r.value.name[|head| + 1..] == TopicPreview(t.topic, ext).value
  {
    var preview :- TopicPreview(t.topic, ext);
    Success(Choice(LabelHead(t, locale, ext) + " " + preview, t.id))
  }

  /** `map` over the options; the first ticket whose topic cannot be decrypted aborts the response. */
  function RenderAll(ts: seq<Ticket>, locale: string, ext: Externals): (r: Result<seq<Choice>, SearchError>)
    ensures r.Success? <==> forall i :: 0 <= i < |ts| ==> RenderChoice(ts[i], locale, ext).Success?
    ensures r.Failure? ==> r.error == DecryptionFailed
    ensures r.Success? ==>
              |r.value| == |ts|
              && forall i :: 0 <= i < |ts| ==> r.value[i] == RenderChoice(ts[i], locale, ext).value
    decreases |ts|
  {
    if ts == [] then Success([])
    else
      var first :- RenderChoice(ts[0], locale, ext);
      var rest :- RenderAll(ts[1..], locale, ext);
      Success([first] + rest)
  }

  /** The fetched tickets after the typed-text filter, before truncation. */
  function SearchOptions(value: string, commandName: string, requesterId: string, guildId: string,
                         locale: string, store: seq<Ticket>, ext: Externals): Result<seq<Ticket>, SearchError>
  {
    FilterOptions(value, locale, ext, FetchTickets(store, requesterId, guildId, FetchesOpen(commandName)))
  }

  /**
   * `TicketCompleter.run`: the argument passed to `interaction.respond`, or the error that
   * the call throws instead.
   */
  function Run(value: string, commandName: string, requesterId: string, guildId: string,
               locale: string, store: seq<Ticket>, ext: Externals): (r: Result<seq<Choice>, SearchError>)
    ensures r.Success? ==> |r.value| <= MaxChoices
    ensures var opts := SearchOptions(value, commandName, requesterId, guildId, locale, store, ext);
            && (opts.Failure? ==> r == Failure(opts.error))
            && (opts.Success? ==>
                  (r.Success? <==> forall i :: 0 <= i < Min(MaxChoices, |opts.value|) ==>
                                      RenderChoice(opts.value[i], locale, ext).Success?)
                  && (r.Success? ==>
                        |r.value| == Min(MaxChoices, |opts.value|)
                        && forall i :: 0 <= i < |r.value| ==>
                             r.value[i].value == opts.value[i].id
                             && r.value[i] == RenderChoice(opts.value[i], locale, ext).value))
  {
    var options :- SearchOptions(value, commandName, requesterId, guildId, locale, store, ext);
    RenderAll(options[..Min(MaxChoices, |options|)], locale, ext)
  }

  // ---------------------------------------------------------------------------------------
  // Properties of the resolver

  /** `new`, `transcript` and every other command outside the open set search closed tickets. */
  lemma OtherCommandsSearchClosed(commandName: string)
    requires commandName !in OpenCommands
    ensures !FetchesOpen(commandName)
  {
  }

  /** An empty typed value lists the fetched tickets unchanged: same tickets, same order. */
  lemma EmptyValueKeepsFetchOrder(commandName: string, requesterId: string, guildId: string,
                                  locale: string, store: seq<Ticket>, ext: Externals)
    ensures SearchOptions("", commandName, requesterId, guildId, locale, store, ext)
            == Success(FetchTickets(store, requesterId, guildId, FetchesOpen(commandName)))
  {
  }

  /**
   * A non-empty typed value keeps, in fetch order, exactly the tickets that pass the filter;
   * duplicates included, so the options are determined by the fetched tickets.
   */
  lemma {:induction false} FilterKeepsExactlyMatches(value: string, locale: string, ext: Externals,
                                                     tickets: seq<Ticket>, t: Ticket)
    requires value != ""
    requires FilterOptions(value, locale, ext, tickets).Success?
    ensures multiset(FilterOptions(value, locale, ext, tickets).value)[t]
            == if Matches(value, locale, ext, t) then multiset(tickets)[t] else 0
  {
    FilterCount(tickets, t => Matches(value, locale, ext, t), t);
  }

  /** A ticket without a topic is judged on its number and its date alone. */
  lemma TopiclessTicketJudgedOnNumberAndDate(value: string, locale: string, ext: Externals, t: Ticket)
    requires t.topic.None?
    ensures Matches(value, locale, ext, t)
            <==> ext.matches(value, DecimalString(t.number)) || ext.matches(value, ShortDate(t, locale, ext))
  {
  }

  /** When every typed pattern matches everything, a non-empty value keeps all tickets. */
  lemma {:induction false} PermissiveMatcherKeepsAll(value: string, locale: string, ext: Externals,
                                                     tickets: seq<Ticket>)
    requires value != "" && ext.compiles(value)
    requires forall s :: ext.matches(value, s)
    ensures FilterOptions(value, locale, ext, tickets) == Success(tickets)
  {
    FilterAll(tickets, t => Matches(value, locale, ext, t));
  }

  /**
   * `add` with no open ticket of the requester in the guild answers with an empty list,
   * whatever was typed: with nothing fetched, not even a malformed pattern is compiled.
   */
  lemma {:induction false} AddWithoutOpenTicketsIsEmpty(value: string, requesterId: string, guildId: string,
                                                        locale: string, store: seq<Ticket>, ext: Externals)
    requires forall i :: 0 <= i < |store| && store[i].createdById == requesterId && store[i].guildId == guildId
                         ==> !store[i].open
    ensures Run(value, "add", requesterId, guildId, locale, store, ext) == Success([])
  {
  }

  /** A topic of 50 characters or more is cut to exactly its first 50, with no ellipsis. */
  lemma LongTopicPreview(cipher: string, plain: string, ext: Externals)
    requires cipher != "" && ext.decrypt(cipher) == Some(plain) && |plain| >= TopicPreviewLength
    ensures TopicPreview(Some(cipher), ext) == Success("| " + plain[..TopicPreviewLength])
  {
  }

  /** A topic of at most 50 characters is shown whole. */
  lemma ShortTopicPreview(cipher: string, plain: string, ext: Externals)
    requires cipher != "" && ext.decrypt(cipher) == Some(plain) && |plain| <= TopicPreviewLength
    ensures TopicPreview(Some(cipher), ext) == Success("| " + plain)
  {
    assert plain[..|plain|] == plain;
  }

  /** A ticket without a topic always renders, and its label is the head followed by one trailing space. */
  lemma TopiclessLabelEndsInSpace(t: Ticket, locale: string, ext: Externals)
    requires t.topic.None?
    ensures RenderChoice(t, locale, ext).Success?
    ensures var name := RenderChoice(t, locale, ext).value.name;
            name == LabelHead(t, locale, ext) + " " && name[|name| - 1] == ' '
  {
  }

  /** The label of a ticket with a decrypted topic ends in "| " and the topic's first characters. */
  lemma TopicLabelEndsInPreview(t: Ticket, locale: string, ext: Externals, plain: string)
    requires t.topic.Some? && t.topic.value != "" && ext.decrypt(t.topic.value) == Some(plain)
    ensures RenderChoice(t, locale, ext).Success?
    ensures var name := RenderChoice(t, locale, ext).value.name;
            var k := Min(TopicPreviewLength, |plain|);
            |name| >= k + 2 && name[|name| - k - 2..] == "| " + plain[..k]
  {
    var head := LabelHead(t, locale, ext);
    var name := RenderChoice(t, locale, ext).value.name;
    var k := Min(TopicPreviewLength, |plain|);
    assert name == head + " " + ("| " + plain[..k]);
  }
}
