/**
 * The `CreateLaptop` operation of the laptop service: it settles the record's
 * id (a random UUID for an empty id, the parsed UUID otherwise), checks for
 * cancellation, saves the record under the canonical id and reports the
 * outcome to the caller's response observer.
 */
module Service {
  import opened Laptops
  import opened Uuids
  import opened Store

  /** The status codes `CreateLaptop` replies with. */
  datatype StatusCode = Cancelled | InvalidArgument | AlreadyExists | Internal

  /** What the response observer receives: a response carrying an id, an error status, or completion. */
  datatype Event = Next(id: string) | Error(code: StatusCode, description: string) | Completed

  /**
   * The UUID routines the service calls: the library's parser, which the
   * model does not see, and the conversion back to text (`Uuids.Format`).
   */
  datatype UuidLibrary = UuidLibrary(parse: string -> ParseResult, format: Uuid -> string)

  datatype CreateLaptopRequest = CreateLaptopRequest(laptop: Laptop)

  /** The store after a request together with the events the request produced. */
  datatype CreateOutcome = CreateOutcome(data: map<string, Laptop>, events: seq<Event>)

  const CANCELLED_DESCRIPTION: string := "request is cancelled"

  /** A unary reply: one error, or one response followed by completion. */
  predicate IsUnaryReply(events: seq<Event>)
  {
    || (|events| == 1 && events[0].Error?)
    || (|events| == 2 && events[0].Next? && events[1] == Completed)
  }

  /** The status a store failure is reported with: a conflict as such, anything else as internal. */
  function StatusOf(error: StoreError): (code: StatusCode)
    ensures code == AlreadyExists <==> error.AlreadyExistsException?
    ensures code == Internal <==> error.OtherException?
  {
    match error
    case AlreadyExistsException(_) => AlreadyExists
    case OtherException(_) => Internal
  }

  /**
   * The UUID a request's id stands for: `random` for the empty id, else what
   * `parse` makes of it. Only a non-empty id can be rejected, and then with
   * the parser's own message.
   */
  function RequestedUuid(id: string, random: Uuid, lib: UuidLibrary): (r: ParseResult)
    ensures id == "" ==> r == Parsed(random)
    ensures id != "" ==> r == lib.parse(id)
    ensures r.Malformed? ==> id != "" && lib.parse(id) == r
  {
    if id == "" then Parsed(random) else lib.parse(id)
  }

  /**
   * The events after a save: a unary reply, which carries a response naming
   * `id` exactly when the save succeeded, and otherwise the failure's status
   * and message.
   */
  function Reply(result: SaveResult, id: string): (r: seq<Event>)
    ensures IsUnaryReply(r)
    ensures r[0].Next? <==> result.Saved?
    ensures result.Saved? ==> r[0].id == id
    ensures result.Failed? ==> r[0] == Error(StatusOf(result.error), result.error.message)
  {
    match result
    case Saved => [Next(id), Completed]
    case Failed(error) => [Error(StatusOf(error), error.message)]
  }

  /**
   * `CreateLaptop` as the service runs it, on store contents `data`. The
   * cancellation error is reported but does not end the request. No stored
   * record is ever replaced, and the events end in an error or a completion.
   */
  function CreateSpec(data: map<string, Laptop>, laptop: Laptop, cancelled: bool, random: Uuid,
                      lib: UuidLibrary): (r: CreateOutcome)
    ensures data.Keys <= r.data.Keys && forall id :: id in data ==> r.data[id] == data[id]
    ensures r.events != [] && (r.events[|r.events| - 1].Error? || r.events[|r.events| - 1] == Completed)
  {
    match RequestedUuid(laptop.id, random, lib)
    case Malformed(message) => CreateOutcome(data, [Error(InvalidArgument, message)])
    case Parsed(uuid) =>
      var cancelEvents := if cancelled then [Error(Cancelled, CANCELLED_DESCRIPTION)] else [];
      var other := laptop.(id := lib.format(uuid));
      var saving := SaveSpec(data, other);
      CreateOutcome(saving.data, cancelEvents + Reply(saving.result, other.id))
  }

  /** `CreateSpec` once the request's id has been settled to `uuid`. */
  lemma CreateSpecSettled(data: map<string, Laptop>, laptop: Laptop, cancelled: bool, random: Uuid,
                          lib: UuidLibrary, uuid: Uuid)
    requires RequestedUuid(laptop.id, random, lib) == Parsed(uuid)
    ensures var other := laptop.(id := lib.format(uuid));
            var saving := SaveSpec(data, other);
            var cancelEvents := if cancelled then [Error(Cancelled, CANCELLED_DESCRIPTION)] else [];
            CreateSpec(data, laptop, cancelled, random, lib) == CreateOutcome(saving.data, cancelEvents + Reply(saving.result, other.id))
  {
  }

  /** The caller's response observer, as the log of what it received. */
  class ResponseObserver {
    var events: seq<Event>

    constructor ()
      ensures events == []
    {
      events := [];
    }

    method OnNext(id: string)
      modifies this
      ensures events == old(events) + [Next(id)]
    {
      events := events + [Next(id)];
    }

    method OnError(code: StatusCode, description: string)
      modifies this
      ensures events == old(events) + [Error(code, description)]
    {
      events := events + [Error(code, description)];
    }

    method OnCompleted()
      modifies this
      ensures events == old(events) + [Completed]
    {
      events := events + [Completed];
    }
  }

  class LaptopService {
    const store: InMemoryLaptopStore
    const lib: UuidLibrary

    /** A service over `store`, parsing ids with `parse` and writing them in canonical form. */
    constructor (store: InMemoryLaptopStore, parse: string -> ParseResult)
      ensures this.store == store && lib == UuidLibrary(parse, Format)
    {
      this.store := store;
      this.lib := UuidLibrary(parse, Format);
    }

    /**
     * Handles one request. `cancelled` is the request context's cancellation
     * flag as read after the id is settled; `random` is the random UUID used
     * when the request's id is empty.
     */
    method CreateLaptop(request: CreateLaptopRequest, responseObserver: ResponseObserver, cancelled: bool, random: Uuid)
      requires store.Valid()
      modifies store, responseObserver
      ensures store.Valid()
      ensures var outcome := CreateSpec(old(store.data), request.laptop, cancelled, random, lib);
              && store.data == outcome.data
              && responseObserver.events == old(responseObserver.events) + outcome.events
    {
      var laptop := request.laptop;
      ghost var data := store.data;
      var id := laptop.id;
      var uuid: Uuid;
      if id == "" {
        uuid := random;
      } else {
        var parsed := lib.parse(id);
        if parsed.Malformed? {
          CreateWithMalformedId(data, laptop, cancelled, random, lib, parsed.message);
          responseObserver.OnError(InvalidArgument, parsed.message);
          return;
        }
        uuid := parsed.uuid;
      }

      CreateSpecSettled(data, laptop, cancelled, random, lib, uuid);
      if cancelled {
        responseObserver.OnError(Cancelled, CANCELLED_DESCRIPTION);
      }

      var other := laptop.(id := lib.format(uuid));
      SaveAndReply(other, responseObserver);
    }

    /**
     * The end of `CreateLaptop`: saves `other` and answers with its id and a
     * completion, or with the status of the store's failure.
     */
    method SaveAndReply(other: Laptop, responseObserver: ResponseObserver)
      requires store.Valid()
      modifies store, responseObserver
      ensures store.Valid()
      ensures var saving := SaveSpec(old(store.data), other);
              && store.data == saving.data
              && responseObserver.events == old(responseObserver.events) + Reply(saving.result, other.id)
    {
      var result := store.Save(other);
      if result.Failed? {
        responseObserver.OnError(StatusOf(result.error), result.error.message);
        return;
      }

      responseObserver.OnNext(other.id);
      responseObserver.OnCompleted();
    }
  }

  // ---------------------------------------------------------------------
  // Properties of CreateLaptop
  // ---------------------------------------------------------------------

  /**
   * An empty id is replaced by the random UUID's canonical text, a 36-character
   * id; when that id is new the record is stored under it, changed only in its
   * id, and the reply names it.
   */
  lemma CreateWithEmptyId(data: map<string, Laptop>, laptop: Laptop, random: Uuid, lib: UuidLibrary)
    requires laptop.id == "" && lib.format(random) !in data
    ensures var outcome := CreateSpec(data, laptop, false, random, lib);
            && (lib.format == Format ==> |outcome.events[0].id| == 36)
            && outcome.events == [Next(lib.format(random)), Completed]
            && outcome.data == data[lib.format(random) := laptop.(id := lib.format(random))]
  {
  }

  /**
   * A non-empty id that parses is replaced by the canonical text of the
   * parsed UUID; the record is saved under that text and the reply names it.
   * When the id already was in canonical form, the reply is the id itself.
   */
  lemma CreateWithParsedId(data: map<string, Laptop>, laptop: Laptop, random: Uuid, lib: UuidLibrary, u: Uuid)
    requires laptop.id != "" && lib.parse(laptop.id) == Parsed(u) && lib.format(u) !in data
    ensures var outcome := CreateSpec(data, laptop, false, random, lib);
            && outcome.events == [Next(lib.format(u)), Completed]
            && outcome.data == data[lib.format(u) := laptop.(id := lib.format(u))]
            && (laptop.id == lib.format(u) ==> outcome.events[0] == Next(laptop.id) && outcome.data[laptop.id] == laptop)
  {
  }

  /**
   * A non-empty id the parser rejects yields exactly one invalid-argument
   * error carrying the parser's message, whether or not the request was
   * cancelled, and the store is unchanged.
   */
  lemma CreateWithMalformedId(data: map<string, Laptop>, laptop: Laptop, cancelled: bool, random: Uuid,
                              lib: UuidLibrary, message: string)
    requires laptop.id != "" && lib.parse(laptop.id) == Malformed(message)
    ensures CreateSpec(data, laptop, cancelled, random, lib) == CreateOutcome(data, [Error(InvalidArgument, message)])
  {
  }

  /**
   * An id that is already stored yields the already-exists error with the
   * store's message, no response and no completion, and the store is
   * unchanged; a cancelled request gets the cancellation error first.
   */
  lemma CreateWithStoredId(data: map<string, Laptop>, laptop: Laptop, cancelled: bool, random: Uuid, lib: UuidLibrary)
    requires RequestedUuid(laptop.id, random, lib).Parsed?
    requires lib.format(RequestedUuid(laptop.id, random, lib).uuid) in data
    ensures var outcome := CreateSpec(data, laptop, cancelled, random, lib);
            && outcome.data == data
            && outcome.events == (if cancelled then [Error(Cancelled, CANCELLED_DESCRIPTION)] else [])
                                 + [Error(AlreadyExists, ALREADY_EXISTS_MESSAGE)]
  {
  }

  /**
   * Whatever the request, the store changes at most by one new entry: the
   * request's record under the canonical text of the requested UUID, and
   * that happens exactly when a response is sent, which names that id.
   * Otherwise the store is unchanged and no response is sent.
   */
  lemma {:induction false} CreateSavesOnlyTheRequest(data: map<string, Laptop>, laptop: Laptop, cancelled: bool,
                                                     random: Uuid, lib: UuidLibrary)
    ensures var outcome := CreateSpec(data, laptop, cancelled, random, lib);
            || (outcome.data == data && forall e :: e in outcome.events ==> !e.Next?)
            || exists id :: && id !in data
                            && RequestedUuid(laptop.id, random, lib).Parsed?
                            && id == lib.format(RequestedUuid(laptop.id, random, lib).uuid)
                            && outcome.data == data[id := laptop.(id := id)]
                            && Next(id) in outcome.events
  {
    var outcome := CreateSpec(data, laptop, cancelled, random, lib);
    var requested := RequestedUuid(laptop.id, random, lib);
    if requested.Parsed? {
      var id := lib.format(requested.uuid);
      if id !in data {
        assert outcome.data == data[id := laptop.(id := id)];
        assert Next(id) in outcome.events;
      }
    }
  }

  /**
   * A request that is not cancelled gets a well-formed unary reply: exactly
   * one error, or exactly one response followed by completion.
   */
  lemma CreateRepliesOnce(data: map<string, Laptop>, laptop: Laptop, random: Uuid, lib: UuidLibrary)
    ensures IsUnaryReply(CreateSpec(data, laptop, false, random, lib).events)
  {
  }

  /**
   * Of two requests for the same canonical id, the first to reach the store
   * succeeds and the second is refused as already existing.
   */
  lemma {:induction false} SecondCreateWithSameIdFails(data: map<string, Laptop>, first: Laptop, second: Laptop,
                                                       cancelled1: bool, cancelled2: bool,
                                                       random1: Uuid, random2: Uuid, lib: UuidLibrary)
    requires RequestedUuid(first.id, random1, lib).Parsed? && RequestedUuid(second.id, random2, lib).Parsed?
    requires lib.format(RequestedUuid(first.id, random1, lib).uuid) == lib.format(RequestedUuid(second.id, random2, lib).uuid)
    requires lib.format(RequestedUuid(first.id, random1, lib).uuid) !in data
    ensures var id := lib.format(RequestedUuid(first.id, random1, lib).uuid);
            var one := CreateSpec(data, first, cancelled1, random1, lib);
            var two := CreateSpec(one.data, second, cancelled2, random2, lib);
            && one.data == data[id := first.(id := id)]
            && Next(id) in one.events
            && two.data == one.data
            && two.events == (if cancelled2 then [Error(Cancelled, CANCELLED_DESCRIPTION)] else [])
                             + [Error(AlreadyExists, ALREADY_EXISTS_MESSAGE)]
  {
    var one := CreateSpec(data, first, cancelled1, random1, lib);
    CreateWithStoredId(one.data, second, cancelled2, random2, lib);
  }

  /**
   * As written, cancellation only prefixes the reply: once the id is
   * settled, a cancelled request changes the store exactly as an uncancelled
   * one does, and its events are the cancellation error followed by the
   * uncancelled request's events.
   */
  lemma CancelledOnlyPrefixesReply(data: map<string, Laptop>, laptop: Laptop, random: Uuid, lib: UuidLibrary)
    requires RequestedUuid(laptop.id, random, lib).Parsed?
    ensures var cancelled, uncancelled := CreateSpec(data, laptop, true, random, lib), CreateSpec(data, laptop, false, random, lib);
            && cancelled.data == uncancelled.data
            && cancelled.events == [Error(Cancelled, CANCELLED_DESCRIPTION)] + uncancelled.events
  {
  }

  // ---------------------------------------------------------------------
  // Cancellation: as written, and with the missing return
  // ---------------------------------------------------------------------

  /**
   * As written, a cancelled request whose id is new is still saved although
   * the caller is told it was cancelled: after the cancellation error the
   * handler goes on to issue a response and a completion, so the sequence of
   * calls on the observer is not a unary reply.
   */
  lemma CancelledRequestIsStillSaved(data: map<string, Laptop>, laptop: Laptop, random: Uuid, lib: UuidLibrary)
    requires RequestedUuid(laptop.id, random, lib).Parsed?
    requires lib.format(RequestedUuid(laptop.id, random, lib).uuid) !in data
    ensures var id := lib.format(RequestedUuid(laptop.id, random, lib).uuid);
            var outcome := CreateSpec(data, laptop, true, random, lib);
            && outcome.events == [Error(Cancelled, CANCELLED_DESCRIPTION), Next(id), Completed]
            && outcome.data == data[id := laptop.(id := id)]
            && !IsUnaryReply(outcome.events)
  {
  }

  /**
   * `CreateLaptop` with the request ending once the cancellation error is
   * reported: a cancelled request gets one error and leaves the store as it was.
   */
  function CreateSpecReturningOnCancel(data: map<string, Laptop>, laptop: Laptop, cancelled: bool, random: Uuid,
                                       lib: UuidLibrary): (r: CreateOutcome)
    ensures cancelled ==> r.data == data && |r.events| == 1 && r.events[0].Error?
  {
    match RequestedUuid(laptop.id, random, lib)
    case Malformed(message) => CreateOutcome(data, [Error(InvalidArgument, message)])
    case Parsed(uuid) =>
      if cancelled then CreateOutcome(data, [Error(Cancelled, CANCELLED_DESCRIPTION)])
      else CreateSpec(data, laptop, false, random, lib)
  }

  /**
   * With the return in place every request gets a unary reply, a cancelled
   * request leaves the store unchanged, and requests that are not cancelled
   * behave exactly as before.
   */
  lemma {:induction false} ReturningOnCancelRepliesOnce(data: map<string, Laptop>, laptop: Laptop, cancelled: bool,
                                                        random: Uuid, lib: UuidLibrary)
    ensures IsUnaryReply(CreateSpecReturningOnCancel(data, laptop, cancelled, random, lib).events)
    ensures cancelled ==> CreateSpecReturningOnCancel(data, laptop, cancelled, random, lib).data == data
    ensures !cancelled ==>
              CreateSpecReturningOnCancel(data, laptop, cancelled, random, lib) == CreateSpec(data, laptop, false, random, lib)
  {
    CreateRepliesOnce(data, laptop, random, lib);
  }
}
