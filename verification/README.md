# Ticket autocomplete and guild registration of a support-ticket bot

This project models the two pieces of logic of the bot's interaction layer that carry
real rules.

- **The ticket autocomplete resolver** (`TicketCompleter.run`). It chooses the ticket scope
  from the command name: open tickets for `add`, `close`, `force-close` and `remove`, closed
  tickets for everything else. It keeps the requester's tickets that the typed text matches
  on the number, the stored topic or the short date, in fetch order. It truncates the list to
  the platform limit of 25. It renders each ticket as
  `<category> #<number> - <date> <topic preview>` with the ticket id as the value.
  `ticket_autocomplete.dfy` models it as pure functions. `decimal.dfy` models `String(number)`.
  `sequences.dfy` models the order-preserving `filter`.
- **The guild-registration gate** (`Client.handleInteraction`). Interactions from outside a
  guild are ignored. Otherwise, when the key `cache/known/guild:<id>` is absent from the
  client's key-value cache, the guild row is upserted. A new row gets the guild's preferred
  locale only if that locale is supported. An existing row is left alone. The key is set
  only after the upsert returns. `guild_registration.dfy` models this as the function
  `Handle` on an explicit state, and as the class `Client`, whose method `HandleInteraction`
  is proved to agree with `Handle`.

The foreign calls of the resolver are fields of the datatype `Externals`, and nothing is
assumed about them:
- whether a pattern compiles;
- whether a pattern matches a string;
- decryption, which may fail;
- short-date formatting;
- the emoji lookup.

The database queries become inputs. `store` is the ticket table in the order the query
returns it. `locale` is the guild's configured locale. The list of supported locales is a
constructor argument of `Client`. The database's answer to an upsert is nondeterministic
inside `Client.Upsert`, and an explicit `upsertSucceeds` argument of `Handle`.

Four behaviours of the code are easy to misread; the model follows the code:
- The filter tests the topic **as stored**, which is the encrypted value, not the decrypted
  topic (`src/autocomplete/ticket.js:40`). Only the label decrypts it
  (`src/autocomplete/ticket.js:48`).
- The pattern is compiled inside the filter callback. A malformed pattern therefore fails
  the search only when at least one ticket was fetched. With no tickets, the answer is an
  empty list (`TicketAutocomplete.AddWithoutOpenTicketsIsEmpty`).
- A present but empty topic passes through the filter's `topic?.match`. The label's
  truthiness test treats it as absent, so its preview is empty.
- A ticket without a topic keeps the space after the date, so its label ends in a space.

## Model

| member | source | states |
|---|---|---|
| `TicketAutocomplete.FetchesOpen` | src/autocomplete/ticket.js:35 | the query asks for open tickets exactly for `add`, `close`, `force-close` and `remove` |
| `TicketAutocomplete.OtherCommandsSearchClosed` | src/autocomplete/ticket.js:35 | every other command name, such as `new` or `transcript`, searches closed tickets |
| `TicketAutocomplete.FetchTickets` | src/autocomplete/ticket.js:23-37 | the fetched tickets are an order-preserving subsequence of the table, each in scope (requester, guild, open flag), and every in-scope ticket of the table is fetched |
| `TicketAutocomplete.FilterOptions` | src/autocomplete/ticket.js:38-42 | an empty value keeps the tickets unchanged; otherwise the search fails with a malformed-pattern error exactly when there is a ticket to test and the pattern does not compile; on success the options are an order-preserving subsequence holding exactly the matching tickets |
| `TicketAutocomplete.EmptyValueKeepsFetchOrder` | src/autocomplete/ticket.js:38-42 | with an empty value, the options are the fetched tickets, same elements, same order |
| `TicketAutocomplete.FilterKeepsExactlyMatches` | src/autocomplete/ticket.js:38-42 | each ticket occurs in the options as often as in the fetch if it matches, and not at all otherwise |
| `TicketAutocomplete.TopiclessTicketJudgedOnNumberAndDate` | src/autocomplete/ticket.js:39-41 | a ticket without a topic matches exactly when its decimal number or its short date matches |
| `TicketAutocomplete.PermissiveMatcherKeepsAll` | src/autocomplete/ticket.js:38-42 | a compiled pattern that matches every string keeps every fetched ticket, in order |
| `TicketAutocomplete.AddWithoutOpenTicketsIsEmpty` | src/autocomplete/ticket.js:32-42 | `add` with no open ticket of the requester in the guild answers with an empty list, whatever was typed |
| `TicketAutocomplete.TopicPreview` | src/autocomplete/ticket.js:48 | the preview is empty for an absent or empty topic; otherwise it fails exactly when decryption fails, and else it is the bar-and-space marker followed by the first `min(50, n)` characters of the decrypted topic |
| `TicketAutocomplete.LongTopicPreview` | src/autocomplete/ticket.js:48 | a decrypted topic of at least 50 characters shows exactly its first 50, with no ellipsis |
| `TicketAutocomplete.ShortTopicPreview` | src/autocomplete/ticket.js:48 | a decrypted topic of at most 50 characters is shown whole |
| `TicketAutocomplete.CategoryLabel` | src/autocomplete/ticket.js:49 | the category text always ends with the category name; it is the bare name when the emoji is unknown, and otherwise the glyph, one space and the name |
| `TicketAutocomplete.RenderChoice` | src/autocomplete/ticket.js:46-53 | a suggestion's value is the ticket id; its name is the head (`<category> #<number> - <date>`), one space, then the topic preview; it fails only when the preview's decryption fails |
| `TicketAutocomplete.TopiclessLabelEndsInSpace` | src/autocomplete/ticket.js:48-51 | a ticket without a topic always renders, and its label is the head followed by exactly one trailing space |
| `TicketAutocomplete.TopicLabelEndsInPreview` | src/autocomplete/ticket.js:48-51 | the label of a ticket with a decrypted topic ends in the bar-and-space marker and the topic's first `min(50, n)` characters |
| `TicketAutocomplete.RenderAll` | src/autocomplete/ticket.js:44-55 | the rendered list has one suggestion per option, entry i rendering option i; it fails exactly when some option's topic cannot be decrypted |
| `TicketAutocomplete.Run` | src/autocomplete/ticket.js:19-56 | the response has at most 25 entries; a search error is passed on; otherwise it has exactly min(25, number of options) entries, entry i has `value = options[i].id` and is option i's suggestion, and it fails exactly when one of the first 25 options cannot be decrypted |
| `Decimal.DecimalString` | src/autocomplete/ticket.js:39 | the rendered ticket number is a non-empty string of digits with no leading zero |
| `Decimal.ParseDecimalString` | src/autocomplete/ticket.js:39 | reading the rendered number back gives the number |
| `Decimal.DecimalStringInjective` | src/autocomplete/ticket.js:51 | distinct ticket numbers render as distinct numerals |
| `Sequences.Filter` | src/autocomplete/ticket.js:38 | the kept elements are an order-preserving subsequence holding exactly the accepted elements of the input |
| `Sequences.FilterCount` | src/autocomplete/ticket.js:38-42 | filtering keeps every occurrence of an accepted element and drops every occurrence of a rejected one |
| `Sequences.FilterAll` | src/autocomplete/ticket.js:38-42 | when every element is accepted, filtering returns its input unchanged |
| `GuildRegistration.CacheKey` | src/client.js:69 | the cache key is the fixed prefix `cache/known/guild:` followed by the guild id |
| `GuildRegistration.CacheKeyInjective` | src/client.js:69 | two guilds share a cache key exactly when they are the same guild |
| `GuildRegistration.FindLocale` | src/client.js:76 | the lookup finds a locale exactly when the preferred locale is supported, and then it is the preferred locale |
| `GuildRegistration.NewGuildRow` | src/client.js:74-77 | a created row's locale is the preferred locale if that locale is supported, and unset otherwise |
| `GuildRegistration.UpsertGuild` | src/client.js:73-80 | the upsert adds the guild's id to the table, creates the given row when the guild was absent, and leaves every existing row unchanged |
| `GuildRegistration.Handle` | src/client.js:66-83 | the gate adds no key but the guild's own and no row but the guild's own; it never changes an existing row; the key is present afterwards exactly when it was before or the upsert succeeded; it issues one upsert exactly when the key was absent |
| `GuildRegistration.HandlePreservesConsistent` | src/client.js:71-82 | if every cached guild has a row before a call, the same holds after it |
| `GuildRegistration.OutsideGuildIgnored` | src/client.js:67 | an interaction outside a guild changes neither the cache, nor the table, nor the upsert count |
| `GuildRegistration.KnownGuildFastPath` | src/client.js:71 | a guild whose key is present causes no upsert and no change |
| `GuildRegistration.NewGuildRegistered` | src/client.js:73-82 | an absent key and a successful upsert give exactly one upsert and add exactly that key; a new row gets the supported preferred locale or none, and an existing row is unchanged |
| `GuildRegistration.FailedUpsertIsRetried` | src/client.js:73-82 | a failed upsert leaves the cache and the table unchanged, and the next call for the guild upserts again with the effect a first call would have had |
| `GuildRegistration.RegistrationIdempotent` | src/client.js:71-82 | after a successful call, a second call for the same guild issues no upsert and leaves the state of the single call |
| `GuildRegistration.Client.constructor` | src/client.js:47 | a new client starts with an empty cache over the existing guild table |
| `GuildRegistration.Client.Upsert` | src/client.js:73-80 | an upsert counts as issued; on success the table is the upserted table; on failure it is unchanged |
| `GuildRegistration.Client.HandleInteraction` | src/client.js:66-83 | the client's new state is `Handle` of its old state, with success exactly when the outcome is not a failed upsert; it reports outside-guild and fast-path calls; a failed upsert leaves the cache unmarked; the invariant that cached guilds have rows is kept |

## Left out

- Client setup, meaning intents, partials, shard configuration and the `SUPER` list (`src/client.js:14-52`): this is static framework configuration.
- `loadLocales` (`src/client.js:54-64`): it reads files and parses YAML. The supported locales are a constructor argument instead.
- `login` and `destroy` (`src/client.js:85-120`): they build the database client, wire logging, run SQLite pragmas and start a timer.
- The regular-expression engine: whether a pattern compiles and what it matches are the uninterpreted `Externals.compiles` and `Externals.matches`.
- Decryption, `toLocaleString` date formatting and the emoji table: these are foreign libraries, modelled as the uninterpreted `Externals.decrypt`, `Externals.shortDate`, `Externals.hasEmoji` and `Externals.emojiGlyph`.
- The guild-settings and ticket queries: their results are inputs. `Run` assumes the settings row exists and its locale is a string. A missing row or an unset locale, where `settings.locale` or `toLocaleString` throws, is not modelled.
- Query, upsert and response failures other than a rejected upsert: these come from the database or the platform.
- `GuildRegistration.Client.Upsert`: a rejected upsert is assumed to write nothing to the guild table; the source promises nothing about the table after a rejection, and the "table unchanged" half of `GuildRegistration.FailedUpsertIsRetried` rests on this assumption.
- `GuildRegistration.Interaction`: being in a guild and having the guild object available are merged into one `Option`. An interaction inside a guild whose guild object is missing, where reading `interaction.guild.preferredLocale` throws before any upsert is issued, cannot be expressed.
- `interaction.respond`: the model returns its argument as `Run`'s result.
- The race in which two concurrent calls for a new guild both see the key as absent: the model is sequential.
- `TicketAutocomplete.TopicPreview`: it truncates at 50 characters of `seq<char>`, whereas `substring` counts UTF-16 code units. The two differ for characters outside the basic multilingual plane.
- `Decimal.DecimalString`: ticket numbers are natural numbers, so `String` of a negative or non-integer number is not modelled.
