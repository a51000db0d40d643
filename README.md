# Live subscription registry

A Dafny model of the `live` package of ponzu-cms: an in-process registry in
which callers subscribe to a (content type, event kind) pair and then receive
every event emitted for that pair.

- `events.dfy`, module `Events` (event.go): the twelve event kinds with their
  ordinals 1..12, and the `LiveEvent` value with its `Content` accessor.
- `format.dfy`, module `Format`: the decimal rendering of Go's `%d` verb,
  used by the registry's error message, with its inverse.
- `live.dfy`, module `Live` (subscribe.go): the registry as the class
  `Subscriptions<T>`, generic in the payload type. Its field `subs` is the
  two-level map (content type, then event kind, then the ordered handles). The
  channel made for each subscriber is a `Handle`, numbered in creation order
  (`next` is the number made so far). A send on a channel is one `Delivery`
  appended to the log `sent`; `Received(h)` is what the receiver of channel `h`
  has been handed, oldest first. A ghost `owner` records the slot each handle
  was put in, and `Valid()` ties it to the table: every bucket that exists is
  non-empty, every handle made sits in exactly one slot, and every send went
to a channel already made.

`Subscribe` and `Emit` follow the source step by step. `Subscribe` first
creates the inner map when the content type has none, then appends. `Emit`'s
inner loop over the bucket is the method `NotifyAll`, and each send is
`Notify`. These methods are proved against the pure functions `Registered`
(the table after one subscription) and `Fanout` (the sends of one emit). The
lemmas state what the source promises about those functions.

`Emit` handles two failed lookups differently. On a content type with no
entry it returns nil and delivers nothing (subscribe.go:30-33, 48). On an entry
with no bucket for the kind it returns a `QueryError` (subscribe.go:35-40).
`Live.UnknownContentTypeScenario` and `Live.KindMismatchScenario` show both
cases.

## Model

| member | source | states |
|---|---|---|
| `Events.Ordinal` | event.go:5-18 | every kind's ordinal is in 1..12 and is its 1-based position in declaration order |
| `Events.KindOf` | event.go:5-18 | an integer names a kind exactly when it is in 1..12, and that kind has the integer as its ordinal |
| `Events.OrdinalRoundTrip` | event.go:5-18 | converting a kind to its ordinal and back gives the same kind |
| `Events.OrdinalsFollowDeclarationOrder` | event.go:6-17 | there are twelve kinds; APICreate is 1, Disable is 12, and each constant is one more than the one before it |
| `Events.AllKindsDistinct` | event.go:5-18 | no kind is declared twice |
| `Events.NoKindIsZero` | event.go:6 | no named kind has ordinal 0, because the enumeration starts at iota + 1 |
| `Events.OrdinalInjective` | event.go:5-18 | two kinds with the same ordinal are the same kind |
| `Events.LiveEvent.Content` | event.go:25-27 | the accessor returns exactly the stored payload: rebuilding the event from its Type and the result gives the event itself |
| `Events.ContentOfBuiltEvent` | event.go:20-27 | an event built from a kind and a payload gives back that payload and that kind |
| `Format.Decimal` | subscribe.go:38 | the `%d` rendering is a non-empty string of digits with no leading zero |
| `Format.DecimalRoundTrip` | subscribe.go:38 | parsing the rendering gives back the number, so distinct ordinals print differently |
| `Live.QueryError.Error` | subscribe.go:84-88 | corrected: the error text is the prefix `[live.error] ` followed by exactly the message |
| `Live.ErrorAsWrittenNeverReturns` | subscribe.go:86-88 | as written, Error formats its own receiver with `%s`, which calls Error again; at every stack depth the call returns nothing |
| `Live.ErrorAsWritten` | subscribe.go:86-88 | as written, Error formats its own receiver with `%s` and so calls itself; with `depth` nested calls left it returns a string only if the nested call does, and any string it returns starts with `[live.error] ` |
| `Live.NoSubs` | subscribe.go:37-39 | the lookup-failure message is `no subs for `, the content type, a dot, and digits that read back as the kind's ordinal |
| `Live.ReadBackMessage` | subscribe.go:38 | a text laid out as the lookup-failure message determines its content type and the number its digits denote |
| `Live.NoSubsIdentifiesQuery` | subscribe.go:37-39 | the lookup-failure message determines the content type and the event kind it was raised for |
| `Live.Registered` | subscribe.go:61-78 | after a subscription the table has the content type as a key; its inner map gains the kind and keeps the kinds it had; the pair's list grows by exactly the new handle at the end; every other pair's list and every other content type's map is unchanged |
| `Live.LazyCreateThenAppend` | subscribe.go:62-77 | creating the inner map when it is missing and then appending to it yields the registered table |
| `Live.EmptyWellFormed` | subscribe.go:17-19 | the empty registry satisfies the invariant |
| `Live.SubscribePreservesWellFormed` | subscribe.go:61-80 | a subscription with the next handle keeps the invariant: no empty bucket exists, and each handle made sits in exactly one slot |
| `Live.HandlesUnique` | subscribe.go:68-77 | in a valid registry one handle never appears in two slots, within a bucket or across buckets |
| `Live.BucketDistinct` | subscribe.go:72-77 | in a valid registry no bucket lists a handle twice |
| `Live.Fanout` | subscribe.go:42-44 | one emit sends to each handle of the bucket once, in bucket order, with the same event each time |
| `Live.InboxConcat` | subscribe.go:51-55 | sends made later reach a receiver after the events it already got |
| `Live.InboxOfFanout` | subscribe.go:42-44 | over a bucket with no repeated handle, the fan-out hands the event exactly once to each handle in the bucket and nothing to any other handle |
| `Live.InboxBeforeChannel` | subscribe.go:68 | a channel that every logged send was addressed before has received nothing, so a freshly made channel starts empty |
| `Live.EmitDelivery` | subscribe.go:42-55 | after an emit, a receiver has what it had before plus the event if it is in the bucket, and nothing new otherwise |
| `Live.Subscriptions.New` | subscribe.go:17-19 | a new registry has no content types, no channels and no sends, and is valid |
| `Live.Subscriptions.Subscribe` | subscribe.go:61-81 | keeps the invariant; returns the next handle, which is in no existing bucket; the table becomes `Registered(old table, contentType, eventType, handle)`; nothing is sent, and the returned receiver has received nothing |
| `Live.Subscriptions.Notify` | subscribe.go:51-56 | for a channel already made, one send of `LiveEvent(eventType, data)` to it is appended to the log and the invariant is kept |
| `Live.Subscriptions.NotifyAll` | subscribe.go:42-44 | for channels already made, the log grows by exactly the fan-out of the event over the bucket, in bucket order, and the invariant is kept |
| `Live.Subscriptions.Emit` | subscribe.go:27-49 | for a content type with no entry: no error and nothing sent; for an entry without a bucket for the kind: the `no subs for` error and nothing sent; otherwise no error and the fan-out over the bucket appended to the log; in every case the table is unchanged and each receiver gains the event exactly when it is in the bucket |

## Left out

- The package-level mutex and all concurrency, including the unlocked read of the map at subscribe.go:62. The model is single-threaded.
- The blocking of unbuffered channels. A send is recorded as completed when it is made, so a receiver that never reads, and the head-of-line blocking it causes, are not modelled.
- The channel values themselves and their receive-only direction. A subscriber is identified by its handle, which is the channel's creation number.
- The `ctx` parameter of `Emit`, because the source never uses it.
- `interface{}` payloads and type assertions on them. The payload is the type parameter `T`.
- The order of the `range` over the map in `Emit`. At most one key equals the content type, so the model looks that key up directly.
- Event kind values outside the twelve named constants. Go lets a caller pass any integer as an untyped constant; the model admits only the named kinds.
- Registries not built by `New` and changed other than by `Subscribe`. `Subscriptions` (subscribe.go:23) is an exported map type, so its nil zero value can be used: `Emit` on it returns nil, and `Subscribe` on it panics at subscribe.go:64 on assignment to a nil map. Callers can also `delete` a content type or set a bucket to nil, after which `Emit` on that pair returns nil and sends nothing, where before it delivered or reported the error. `Valid()` rules these states out, so the model covers only a registry made by `New` and the `Subscribe` calls that follow.
- Byte strings. Go strings are byte strings; content-type names are modelled as Dafny `string`. The core only compares names for equality and concatenates them into the error message, so no behaviour is lost.
- Go's `fmt` beyond the two verbs the message uses. The model covers `%s` of a string and `%d` of a positive ordinal.

## Findings

| source | as written | input that shows it | evidently intended | confidence | as-written member | corrected member |
|---|---|---|---|---|---|---|
| subscribe.go:86-88 | `Error` formats its own receiver `e` with `%s`. Go's fmt prints an operand that implements `error` by calling its `Error` method, so `Error` calls itself without end and exhausts the stack | any QueryError, for example the one `Emit` returns for `Subscribe("Article", Save)` followed by `Emit(ctx, "Article", x, Delete)`, on which the caller calls `Error()` | the text `[live.error] ` followed by the message string, formatting `string(e)` | high; not executed | `Live.ErrorAsWritten`, `Live.ErrorAsWrittenNeverReturns` | `Live.QueryError.Error` |
