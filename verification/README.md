# Laptop catalog store and create-laptop service

This project models the core of a gRPC laptop catalog in Dafny. It has two parts.

- **The in-memory laptop store.** It keeps a table of laptop records keyed by id. `Save` refuses an id that is already present. `Find` returns the record stored under an id, or nothing. `Search` walks the table, checks for cancellation before every entry, and sends each record that passes a filter on price, CPU cores, CPU frequency and RAM. RAM is compared in bits, computed on Java `long`s with their 64-bit wrap-around.
- **The `createLaptop` RPC of the laptop service.** It settles the record's id: an empty id becomes a random UUID, and any other id is parsed as a UUID or rejected with `INVALID_ARGUMENT`. It then checks for cancellation, saves the record under the canonical text of the UUID, and answers with the id, or with `ALREADY_EXISTS` or `INTERNAL`.

Files:

- `laptops.dfy`: the record types (laptop, CPU, memory, filter) and the Java `long` range.
- `uuids.dfy`: UUID values, the canonical text form (section 3 of RFC 4122, as `java.util.UUID.toString` writes it) and the outcome of parsing.
- `store.dfy`: the memory conversion, the qualification predicate, the specification functions of the scan and of insertion, and the class `InMemoryLaptopStore`.
- `search_properties.dfy`: lemmas about conversion, qualification and the scan.
- `store_properties.dfy`: lemmas about insertion and lookup.
- `service.dfy`: the response observer, the specification of `createLaptop`, the class `LaptopService`, and lemmas about the RPC, including the cancellation finding.

Inputs the code takes from its environment become explicit parameters.

- The iteration order of the concurrent map is a parameter `order` of `Search`. It must enumerate every key exactly once.
- The cancellation signal read before each entry is `cancelled[i]`.
- The cancellation flag that `createLaptop` reads is a parameter, and so is the random UUID.
- `UUID.fromString` is a library routine the model does not see. The service holds it as a function `parse`, and the model states its properties for every such function.

## Model

| member | source | states |
|---|---|---|
| Store.ToLong | src/main/java/com/kittichanr/springgrpc/service/InMemoryLaptopStore.java:86-90 | a shifted value is narrowed to a long congruent to it modulo 2^64, and is unchanged when it already fits |
| Store.BitShift | src/main/java/com/kittichanr/springgrpc/service/InMemoryLaptopStore.java:84-92 | the units bit, byte, kilobyte, megabyte, gigabyte and terabyte have a shift below 64, and exactly the unset and unrecognised units have none |
| Store.ToBit | src/main/java/com/kittichanr/springgrpc/service/InMemoryLaptopStore.java:82-93 | the result agrees with the exact number of bits (value times 2^shift, 0 for an unknown unit) modulo 2^64, and equals it whenever that fits in a long |
| SearchProperties.ToBitPerUnit | src/main/java/com/kittichanr/springgrpc/service/InMemoryLaptopStore.java:84-92 | per unit and for every value whose product fits in a long: bit gives the value, byte 8 times it, kilobyte 2^13, megabyte 2^23, gigabyte 2^33 and terabyte 2^43 times it; the unset and unrecognised units give 0 |
| SearchProperties.ToBitWrapsAround | src/main/java/com/kittichanr/springgrpc/service/InMemoryLaptopStore.java:90 | for every value from 2^20 up to 2^21 terabytes the result is the exact size minus 2^64, a negative number that compares below one bit |
| Store.IsQualified | src/main/java/com/kittichanr/springgrpc/service/InMemoryLaptopStore.java:63-80 | a laptop qualifies iff its price is at most the maximum, it has at least the minimum cores, its minimum GHz is at least the filter's, and its RAM in bits (as computed on longs) is at least the filter's |
| SearchProperties.QualifiedIff | src/main/java/com/kittichanr/springgrpc/service/InMemoryLaptopStore.java:63-80 | while neither memory amount overflows a long, the memory check compares the exact sizes in bits, with an unknown unit (such as an unset minimum) counting as 0 bits |
| SearchProperties.QualifiedReadsFourFields | src/main/java/com/kittichanr/springgrpc/service/InMemoryLaptopStore.java:63-80 | qualification depends only on price, core count, minimum GHz and RAM |
| SearchProperties.QualifiedWeakerFilter | src/main/java/com/kittichanr/springgrpc/service/InMemoryLaptopStore.java:63-80 | a filter that is no stricter on any of the four bounds accepts every laptop that a stricter one accepts |
| SearchProperties.UnsetFilterRejectsPricedLaptops | src/main/java/com/kittichanr/springgrpc/service/InMemoryLaptopStore.java:64-66 | a filter with unset fields has maximum price 0.0 and rejects every laptop with a positive price |
| Store.Qualifying | src/main/java/com/kittichanr/springgrpc/service/InMemoryLaptopStore.java:46-60 | the scan output over some keys is never longer than the keys |
| Store.QualifyingSound | src/main/java/com/kittichanr/springgrpc/service/InMemoryLaptopStore.java:56-59 | every record sent passes the filter and is a stored record |
| Store.QualifyingPrefix | src/main/java/com/kittichanr/springgrpc/service/InMemoryLaptopStore.java:46-60 | scanning further only appends: the output for a shorter prefix of the keys is a prefix of the output for a longer one |
| Store.QualifyingPrefixOfAll | src/main/java/com/kittichanr/springgrpc/service/InMemoryLaptopStore.java:46-60 | the output of a scan that stopped early is a prefix of a full scan's output |
| Store.FirstCancel | src/main/java/com/kittichanr/springgrpc/service/InMemoryLaptopStore.java:47-50 | the scan stops at the first entry whose cancellation signal is set: no earlier signal is set, and it is the end when none is |
| Store.ScanStopped | src/main/java/com/kittichanr/springgrpc/service/InMemoryLaptopStore.java:46-60 | a scan that stopped at entry i stopped at the first cancellation, and what it sent is sound and a prefix of a full scan's output |
| Store.InMemoryLaptopStore.constructor | src/main/java/com/kittichanr/springgrpc/service/InMemoryLaptopStore.java:19-21 | a new store is empty and keeps every record under its own id |
| Store.SaveSpec | src/main/java/com/kittichanr/springgrpc/service/InMemoryLaptopStore.java:24-33 | a present id is refused with the store's message and the table kept; otherwise exactly one entry, the record under its id, is added and no other entry changes; records stay under their own ids |
| Store.InMemoryLaptopStore.Save | src/main/java/com/kittichanr/springgrpc/service/InMemoryLaptopStore.java:24-33 | a present id is refused with AlreadyExistsException("laptop ID already exists") and the table is unchanged; otherwise the record is added under its id and no other entry changes; every record stays under its own id |
| Store.InMemoryLaptopStore.Find | src/main/java/com/kittichanr/springgrpc/service/InMemoryLaptopStore.java:36-42 | the result is absent exactly when the id is not stored, and is otherwise the stored record, which carries that id |
| Store.InMemoryLaptopStore.Search | src/main/java/com/kittichanr/springgrpc/service/InMemoryLaptopStore.java:45-61 | the records sent are the qualifying records of the entries before the first cancellation, in iteration order; they are sound, form a prefix of a full scan's output, and are the full output when nothing is cancelled |
| SearchProperties.QualifyingMembership | src/main/java/com/kittichanr/springgrpc/service/InMemoryLaptopStore.java:56-59 | a record is sent iff it qualifies and is stored under one of the scanned keys |
| SearchProperties.SearchComplete | src/main/java/com/kittichanr/springgrpc/service/InMemoryLaptopStore.java:45-61 | an uncancelled scan sends exactly the stored records that qualify |
| SearchProperties.QualifyingCount | src/main/java/com/kittichanr/springgrpc/service/InMemoryLaptopStore.java:46-59 | over distinct keys, the output has one record per qualifying key |
| SearchProperties.SearchSendsEachEntryOnce | src/main/java/com/kittichanr/springgrpc/service/InMemoryLaptopStore.java:45-61 | an uncancelled scan sends as many records as there are qualifying entries, so no entry is sent twice |
| SearchProperties.CancelledSearchEmitsOnlyEarlierEntries | src/main/java/com/kittichanr/springgrpc/service/InMemoryLaptopStore.java:47-50 | a cancelled scan sends only qualifying records of entries before the cancellation, and a prefix of the full output |
| StoreProperties.SaveSameIdTwice | src/main/java/com/kittichanr/springgrpc/service/InMemoryLaptopStore.java:24-33 | a save under a new id stores the record under that id; a second save under the same id is refused and changes nothing |
| StoreProperties.SaveThenFind | src/main/java/com/kittichanr/springgrpc/service/InMemoryLaptopStore.java:24-42 | on the store itself: after saving a record under a new id, finding that id returns the record and saving under it again is refused |
| Uuids.Hex | src/main/java/com/kittichanr/springgrpc/service/LaptopService.java:62 | writes exactly the requested number of lower-case hexadecimal digits |
| Uuids.Format | src/main/java/com/kittichanr/springgrpc/service/LaptopService.java:62 | the id text is 36 characters: dashes at positions 8, 13, 18 and 23, hexadecimal digits elsewhere |
| Service.StatusOf | src/main/java/com/kittichanr/springgrpc/service/LaptopService.java:67-78 | a conflict is reported as ALREADY_EXISTS and every other store failure as INTERNAL, and conversely |
| Service.RequestedUuid | src/main/java/com/kittichanr/springgrpc/service/LaptopService.java:33-45 | an empty id settles to the random UUID and any other id to the parser's result, so only a non-empty id can be rejected, with the parser's own message |
| Service.Reply | src/main/java/com/kittichanr/springgrpc/service/LaptopService.java:64-83 | the reply after a save is unary: a response naming the id (then completion) exactly when the save succeeded, otherwise one error with the failure's status and message |
| Service.CreateSpec | src/main/java/com/kittichanr/springgrpc/service/LaptopService.java:27-86 | a request never replaces a stored record, and its events always end in an error or a completion |
| Service.ResponseObserver.OnNext | src/main/java/com/kittichanr/springgrpc/service/LaptopService.java:82 | the observer's log gains one response carrying the id |
| Service.ResponseObserver.OnError | src/main/java/com/kittichanr/springgrpc/service/LaptopService.java:40-42 | the observer's log gains one error with its status and description |
| Service.ResponseObserver.OnCompleted | src/main/java/com/kittichanr/springgrpc/service/LaptopService.java:83 | the observer's log gains the completion |
| Service.LaptopService.constructor | src/main/java/com/kittichanr/springgrpc/service/LaptopService.java:21-23 | the service uses the given store, the given UUID parser and canonical formatting |
| Service.LaptopService.CreateLaptop | src/main/java/com/kittichanr/springgrpc/service/LaptopService.java:27-86 | the new store contents and the events sent to the observer are exactly those of the request's specification; the store keeps every record under its own id |
| Service.LaptopService.SaveAndReply | src/main/java/com/kittichanr/springgrpc/service/LaptopService.java:64-83 | the store becomes what saving the record makes of it, and the observer receives the reply to that save: the id and completion, or the failure's status and message |
| Service.CreateWithEmptyId | src/main/java/com/kittichanr/springgrpc/service/LaptopService.java:34-35 | for an uncancelled request with an empty id whose random UUID's text is not yet stored, the id becomes that 36-character canonical text; the record is stored under it, changed only in its id, and the reply names it |
| Service.CreateWithParsedId | src/main/java/com/kittichanr/springgrpc/service/LaptopService.java:37-38 | for an uncancelled request whose parsed id is not yet stored, the id is replaced by its canonical text, under which the record is saved and replied; an id already in canonical form comes back unchanged |
| Service.CreateWithMalformedId | src/main/java/com/kittichanr/springgrpc/service/LaptopService.java:39-43 | an id the parser rejects yields one INVALID_ARGUMENT error with the parser's message, and the store is unchanged |
| Service.CreateWithStoredId | src/main/java/com/kittichanr/springgrpc/service/LaptopService.java:53-72 | an id already stored yields an ALREADY_EXISTS error with the store's message and no response or completion, preceded by the CANCELLED error when the request was cancelled; the store is unchanged |
| Service.CreateSavesOnlyTheRequest | src/main/java/com/kittichanr/springgrpc/service/LaptopService.java:62-83 | either the store is unchanged and no response is sent, or exactly one entry is added, the request's record under the canonical text of the requested UUID, and a response naming that id is sent |
| Service.CreateRepliesOnce | src/main/java/com/kittichanr/springgrpc/service/LaptopService.java:27-86 | an uncancelled request gets exactly one error, or one response followed by completion |
| Service.SecondCreateWithSameIdFails | src/main/java/com/kittichanr/springgrpc/service/LaptopService.java:53-83 | of two requests for the same canonical id, cancelled or not, the first (when its id is not yet stored) adds its record under that id and sends a response naming it; the second leaves the store unchanged and gets ALREADY_EXISTS, preceded by CANCELLED when it was cancelled |
| Service.CancelledOnlyPrefixesReply | src/main/java/com/kittichanr/springgrpc/service/LaptopService.java:53-60 | once the id is settled, a cancelled request changes the store exactly as an uncancelled one, and its events are the CANCELLED error followed by the uncancelled events |
| Service.CancelledRequestIsStillSaved | src/main/java/com/kittichanr/springgrpc/service/LaptopService.java:53-60 | as written, a cancelled request whose id settles to a canonical id not yet stored is still saved under that id, and gets the CANCELLED error followed by a response and completion, which is not a unary reply |
| Service.CreateSpecReturningOnCancel | src/main/java/com/kittichanr/springgrpc/service/LaptopService.java:53-60 | with a return after the CANCELLED error, a cancelled request gets exactly one error and leaves the store unchanged |
| Service.ReturningOnCancelRepliesOnce | src/main/java/com/kittichanr/springgrpc/service/LaptopService.java:53-60 | with a return after the CANCELLED error, every request gets a unary reply, a cancelled request leaves the store unchanged, and uncancelled requests behave as before |

## Left out

- The response observer is a log that accepts every call. The transport's observer does not: after `onError` a further `onNext` throws, so on the cancelled path of `createLaptop` the caller sees only the CANCELLED error. The model records the calls the handler makes, not what the transport delivers.
- Concurrency: the store's table is a `ConcurrentHashMap`, and requests may run in parallel. The model runs one operation at a time.
- The one-second pause before each scanned entry, and the `RuntimeException` on interruption. They are timing only, apart from the interruption path, which is not modelled.
- Logging.
- The stream callback: a failure of `LaptopStream.Send` is not modelled. The scan's output is returned as the sequence of records sent.
- Defensive copies (`toBuilder().build()`) in `Save`, `Find` and `Search`. Records are values here, so a copy is the record itself.
- `UUID.fromString` and `UUID.randomUUID`. The parser is a function given to the service, so its messages (such as "Invalid UUID string: invalid") are whatever it returns. The random UUID is a parameter.
- Uuids.Hex: its contract states the number of digits and that each is a lower-case hexadecimal digit, not that they spell out `n` modulo 16^width.
- Uuids.Format: its contract states the 8-4-4-4-12 shape of the text, not that the digits spell out the two halves' values.
- The integer and floating-point widths of the other fields. Core counts are unbounded integers, and prices and frequencies are reals; NaN and 32-bit unsigned reinterpretation are not modelled. Only RAM conversion overflows in a way that changes a comparison, and that is modelled exactly.
- Laptop fields the core only copies (storage, GPUs, screen, keyboard, weight, update time) are one opaque `otherFields` value.
- The other RPCs (search, upload image, rate laptop), the image and rating stores, the client and the serializer are not part of this model. The `LaptopStore` interface has a single implementation here.
- The search filter's unset maximum price is the schema's zero value 0.0, as the code reads it, not "no limit". So a default filter rejects every priced laptop (`SearchProperties.UnsetFilterRejectsPricedLaptops`).
- Store.InMemoryLaptopStore.Search: it requires the iteration order as an explicit enumeration of the table's keys, because the map's own order is unspecified.

## Findings

| source | as written | input that shows it | evidently intended | confidence | as-written member | corrected member |
|---|---|---|---|---|---|---|
| src/main/java/com/kittichanr/springgrpc/service/LaptopService.java:53-60 | the laptop is saved although the caller was told CANCELLED: the method does not return after the CANCELLED error, saves the record and then calls `onNext` and `onCompleted` | a request with an empty id, cancelled before the check, with a random id not yet stored | return right after the CANCELLED error, so the store is untouched and the caller gets exactly one reply | not executed | Service.CancelledRequestIsStillSaved | Service.ReturningOnCancelRepliesOnce |
