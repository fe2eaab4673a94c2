/**
 The extraction cache: a row is written once per (content, prompt, model, schema)
 and answers every later request for it.

 Several workers look up, call the model and store in any interleaving. The
 model's answers, their validation and the row's text form are parameters.
 */
module ExtractionCache {
  import opened Options

  type Bytes = seq<int>
  type Extraction = seq<string>
  type WorkerId = nat

  /** A configured service: its prompt and schema versions, and the model it asks. */
  datatype Service = Service(prompt: string, schema: string, model: string)

  datatype Key = Key(contentHash: Bytes, prompt: string, model: string, schema: string)

  /** What the provider returns, with the name of the model that answered. */
  datatype Reply = Reply(model: string, output: Bytes)

  datatype Codec = Codec(
    validate: Bytes -> Option<Extraction>, marshal: Extraction -> Bytes, unmarshal: Bytes -> Option<Extraction>)

  datatype Call = Call(service: Service, contentHash: Bytes)

  /** `rows` maps a key to the stored text; `calls` are the model calls being waited for. */
  datatype State = State(rows: map<Key, Bytes>, calls: map<WorkerId, Call>)

  datatype Event =
    | Ask(worker: WorkerId, service: Service, contentHash: Bytes)
    | Answer(worker: WorkerId, reply: Option<Reply>)

  function KeyOf(service: Service, contentHash: Bytes, model: string): Key {
    Key(contentHash, service.prompt, model, service.schema)
  }

  /** What the cache serves: the row under the service's own model, if it can be read. */
  function Served(codec: Codec, s: State, service: Service, contentHash: Bytes): Option<Extraction> {
    var key := KeyOf(service, contentHash, service.model);
    if key in s.rows then codec.unmarshal(s.rows[key]) else None
  }

  /** ON CONFLICT DO NOTHING. */
  function Put(rows: map<Key, Bytes>, key: Key, text: Bytes): map<Key, Bytes> {
    if key in rows then rows else rows[key := text]
  }

  function Next(codec: Codec, s: State, e: Event): State {
    match e
    case Ask(w, service, contentHash) =>
      if w in s.calls || |contentHash| == 0 || Served(codec, s, service, contentHash).Some? then s
      else s.(calls := s.calls[w := Call(service, contentHash)])
    case Answer(w, reply) =>
      if w !in s.calls then s else
      var call := s.calls[w];
      var result := if reply.Some? then codec.validate(reply.value.output) else None;
      State(if result.None? then s.rows
          else Put(s.rows, KeyOf(call.service, call.contentHash, reply.value.model), codec.marshal(result.value)),
            s.calls - {w})
  }

  function Run(codec: Codec, s: State, es: seq<Event>): State {
    if |es| == 0 then s else Next(codec, Run(codec, s, es[..|es| - 1]), es[|es| - 1])
  }

  ghost predicate RoundTrips(codec: Codec) {
    forall x :: codec.unmarshal(codec.marshal(x)) == Some(x)
  }

  // ---------------------------------------------------------------- when the model is asked

  /** Content, prompt version, model and schema version make a key, and any difference makes another. */
  lemma KeysAreTheSameIff(a: Service, b: Service, x: Bytes, y: Bytes, m: string, n: string)
    ensures KeyOf(a, x, m) == KeyOf(b, y, n) <==> x == y && a.prompt == b.prompt && a.schema == b.schema && m == n
  {
  }

  /** A request goes to the model exactly when it names a content the cache cannot serve. */
  lemma AsksIff(codec: Codec, s: State, w: WorkerId, service: Service, contentHash: Bytes)
    requires w !in s.calls
    ensures var s' := Next(codec, s, Ask(w, service, contentHash));
            var key := Key(contentHash, service.prompt, service.model, service.schema);
            && s'.rows == s.rows
            && s'.calls == (if |contentHash| > 0 && !(key in s.rows && codec.unmarshal(s.rows[key]).Some?)
                            then s.calls[w := Call(service, contentHash)] else s.calls)
  {
  }

  /** An answer ends the call it answers and no other, and a worker has one call at a time. */
  lemma AnswersEndTheCall(codec: Codec, s: State, w: WorkerId, reply: Option<Reply>, service: Service,
          contentHash: Bytes)
    requires w in s.calls
    ensures Next(codec, s, Answer(w, reply)).calls == s.calls - {w}
    ensures Next(codec, s, Ask(w, service, contentHash)) == s
  {
  }

  // ---------------------------------------------------------------- over whole runs

  lemma {:induction false} RowsAreWrittenOnce(codec: Codec, s: State, es: seq<Event>, key: Key)
    requires key in s.rows
    ensures key in Run(codec, s, es).rows && Run(codec, s, es).rows[key] == s.rows[key]
  {
    if |es| > 0 {
      RowsAreWrittenOnce(codec, s, es[..|es| - 1], key);
    }
  }

  /**
   Main theorem: once the cache serves a result for a content, it serves that result for ever,
   whoever answers later.
   */
  lemma ServedForEver(codec: Codec, s: State, es: seq<Event>, service: Service, contentHash: Bytes)
    requires Served(codec, s, service, contentHash).Some?
    ensures Served(codec, Run(codec, s, es), service, contentHash) == Served(codec, s, service, contentHash)
  {
    RowsAreWrittenOnce(codec, s, es, KeyOf(service, contentHash, service.model));
  }

  /** And from then on nobody pays for that content: asking starts no call. */
  lemma NobodyPaysTwice(codec: Codec, s: State, es: seq<Event>, w: WorkerId, service: Service, contentHash: Bytes)
    requires Served(codec, s, service, contentHash).Some?
    ensures Next(codec, Run(codec, s, es), Ask(w, service, contentHash)) == Run(codec, s, es)
  {
    ServedForEver(codec, s, es, service, contentHash);
  }

  /**
   A first answer is served afterwards if and only if the provider names the
   model the service looks rows up under; under another name it is stored where
   this service never looks.
   */
  lemma AnswersAreServedIff(codec: Codec, s: State, w: WorkerId, reply: Reply)
    requires RoundTrips(codec) && w in s.calls && codec.validate(reply.output).Some?
    requires forall m :: KeyOf(s.calls[w].service, s.calls[w].contentHash, m) !in s.rows
    ensures var call := s.calls[w];
            Served(codec, Next(codec, s, Answer(w, Some(reply))), call.service, call.contentHash)
            == if reply.model == call.service.model then codec.validate(reply.output) else None
  {
    var call := s.calls[w];
    assert KeyOf(call.service, call.contentHash, call.service.model) !in s.rows;
    assert KeyOf(call.service, call.contentHash, reply.model) !in s.rows;
  }

  /** The answer is usable and is stored under this key as this text. */
  predicate Stores(codec: Codec, e: Event, key: Key, text: Bytes) {
    e.Answer? && e.reply.Some? && e.reply.value.model == key.model
    && codec.validate(e.reply.value.output).Some?
    && text == codec.marshal(codec.validate(e.reply.value.output).value)
  }

  /**
   Rejected and failed answers are never cached: in every run each row that was not there
   before holds the normal form of an answer of that run that passed validation.
   */
  lemma {:induction false} OnlyValidAnswersAreCached(codec: Codec, s: State, es: seq<Event>, key: Key)
    requires key !in s.rows && key in Run(codec, s, es).rows
    ensures exists k :: 0 <= k < |es| && Stores(codec, es[k], key, Run(codec, s, es).rows[key])
  {
    var n := |es| - 1;
    if key in Run(codec, s, es[..n]).rows {
      OnlyValidAnswersAreCached(codec, s, es[..n], key);
      var k :| 0 <= k < n && Stores(codec, es[..n][k], key, Run(codec, s, es[..n]).rows[key]);
      assert Stores(codec, es[k], key, Run(codec, s, es).rows[key]);
    } else {
      assert Stores(codec, es[n], key, Run(codec, s, es).rows[key]);
    }
  }

  /** An unreadable row is never repaired: whatever is answered later, every request for it goes to the model again. */
  lemma UnreadableRowsStay(codec: Codec, s: State, es: seq<Event>, w: WorkerId, service: Service, contentHash: Bytes)
    requires var key := KeyOf(service, contentHash, service.model); key in s.rows && codec.unmarshal(s.rows[key]).None?
    requires |contentHash| > 0 && w !in Run(codec, s, es).calls
    ensures Served(codec, Run(codec, s, es), service, contentHash) == None
    ensures w in Next(codec, Run(codec, s, es), Ask(w, service, contentHash)).calls
  {
    RowsAreWrittenOnce(codec, s, es, KeyOf(service, contentHash, service.model));
  }

  /**
   Two workers that miss together both pay, and the one that stores second is
   told its own result, which need not be the one the cache serves.
   */
  lemma SecondAnswerIsNotStored(codec: Codec, s: State, v: WorkerId, w: WorkerId, first: Reply, second: Reply)
    requires RoundTrips(codec) && v != w && v in s.calls && w in s.calls && s.calls[v] == s.calls[w]
    requires codec.validate(first.output).Some? && codec.validate(second.output).Some?
    requires first.model == second.model == s.calls[v].service.model
    requires KeyOf(s.calls[v].service, s.calls[v].contentHash, first.model) !in s.rows
    ensures var s' := Run(codec, s, [Answer(v, Some(first)), Answer(w, Some(second))]);
            Served(codec, s', s.calls[v].service, s.calls[v].contentHash) == codec.validate(first.output)
  {
    var es := [Answer(v, Some(first)), Answer(w, Some(second))];
    assert es[..1] == [es[0]] && es[..1][..0] == [];
    assert Run(codec, s, es[..1]) == Next(codec, s, es[0]);
  }

  // ---------------------------------------------------------------- the service

  datatype Outcome =
    | Result(extraction: Extraction, cacheHit: bool, model: string)
    | NoContentHash | LookupError | ProviderError | Rejected | StoreError

  class Cache {
    var rows: map<Key, Bytes>

    constructor ()
      ensures rows == map[]
    {
      rows := map[];
    }

    /**
     One extraction with nobody else at the cache; `reply` is what the provider would
     answer if asked, and the flags say whether the two statements fail.
     */
    method Extract(codec: Codec, service: Service, contentHash: Bytes, reply: Option<Reply>, lookupFails: bool,
            storeFails: bool, ghost w: WorkerId)
      returns (outcome: Outcome)
      modifies this
      ensures outcome.NoContentHash? <==> |contentHash| == 0
      ensures outcome.LookupError? <==> |contentHash| > 0 && lookupFails
      ensures |contentHash| > 0 && !lookupFails ==>
                var cached := Served(codec, State(old(rows), map[]), service, contentHash);
                if cached.Some? then outcome == Result(cached.value, true, service.model)
                else if reply.None? then outcome == ProviderError
                else if codec.validate(reply.value.output).None? then outcome == Rejected
                else if storeFails then outcome == StoreError
                else outcome == Result(codec.validate(reply.value.output).value, false, reply.value.model)
      ensures rows == if outcome.LookupError? || outcome.StoreError? then old(rows)
                      else Run(codec, State(old(rows), map[]), [Ask(w, service, contentHash), Answer(w, reply)]).rows
    {
      ghost var es := [Ask(w, service, contentHash), Answer(w, reply)];
      ghost var s := State(rows, map[]);
      assert es[..1] == [es[0]] && es[..1][..0] == [];
      assert Run(codec, s, es[..1]) == Next(codec, s, es[0]);
      if |contentHash| == 0 {
        return NoContentHash;
      }
      if lookupFails {
        return LookupError;
      }
      var key := KeyOf(service, contentHash, service.model);
      if key in rows {
        var cached := codec.unmarshal(rows[key]);
        if cached.Some? {
          return Result(cached.value, true, key.model);
        }
      }
      if reply.None? {
        return ProviderError;
      }
      var result := codec.validate(reply.value.output);
      if result.None? {
        return Rejected;
      }
      if storeFails {
        return StoreError;
      }
      rows := Put(rows, KeyOf(service, contentHash, reply.value.model), codec.marshal(result.value));
      outcome := Result(result.value, false, reply.value.model);
    }
  }
}
