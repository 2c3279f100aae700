/** `PersistenceCredentialStore`: one encrypted entry per context, read with retries, "deleted" by
    overwriting it with the empty string. */
module CredentialStore {
  import opened Optional
  import opened Credentials

  /** How one attempt at reading can fail though the entry may be there. */
  datatype Fault = NotFound | BackendError

  const READ_ATTEMPTS := 4

  datatype Read = Stored(bundle: TokenBundle) | Nothing | StoreError | BadEntry

  function Interpret(raw: string): Read {
    if raw == "" then Nothing
    else match Decode(raw) case Bundle(b) => Stored(b) case _ => BadEntry
  }

  type Entries = map<string, string>

  /** What a read that goes through finds for a context. */
  function Content(entries: Entries, context: string): Read {
    if context in entries then Interpret(entries[context]) else Nothing
  }

  lemma ReadsBack(b: TokenBundle)
    ensures Interpret(Encode(b)) == Stored(b)
  {
    DecodesEncoded(b);
  }

  lemma ContentAfterWrite(entries: Entries, context: string, raw: string, other: string)
    ensures Content(entries[context := raw], context) == Interpret(raw)
    ensures other != context ==> Content(entries[context := raw], other) == Content(entries, other)
  {
  }

  /** What is stored reads back as it was stored, what is deleted as nothing, and neither touches
      another context. */
  lemma StoreLaws(entries: Entries, context: string, b: TokenBundle, other: string)
    ensures Content(entries[context := Encode(b)], context) == Stored(b)
    ensures Content(entries[context := ""], context) == Nothing
    ensures other != context ==>
      && Content(entries[context := Encode(b)], other) == Content(entries, other)
      && Content(entries[context := ""], other) == Content(entries, other)
  {
    ReadsBack(b);
    ContentAfterWrite(entries, context, Encode(b), other);
    ContentAfterWrite(entries, context, "", other);
  }

  /** What `get_tokens` comes to: an attempt that gets through decides for an entry that exists, and the
      last attempt decides otherwise. */
  function ReadOf(entries: Entries, context: string, faults: seq<Option<Fault>>): Read
    requires |faults| == READ_ATTEMPTS
  {
    if context in entries && None in faults then Content(entries, context)
    else if faults[READ_ATTEMPTS - 1] == Some(BackendError) then StoreError else Nothing
  }

  class Store {
    var entries: Entries

    constructor ()
      ensures entries == map[]
    {
      entries := map[];
    }

    /** `get_tokens`; `faults` says which of its attempts fail for a moment. */
    method GetTokens(context: string, faults: seq<Option<Fault>>) returns (r: Read)
      requires |faults| == READ_ATTEMPTS
      ensures context in entries && None in faults ==> r == Content(entries, context)
      ensures context !in entries || None !in faults ==>
        r == if faults[READ_ATTEMPTS - 1] == Some(BackendError) then StoreError else Nothing
    {
      var attempt := 1;
      while true
        invariant 1 <= attempt <= READ_ATTEMPTS
        invariant context in entries ==> forall i :: 0 <= i < attempt - 1 ==> faults[i] != None
        decreases READ_ATTEMPTS - attempt
      {
        var last := attempt == READ_ATTEMPTS;
        match faults[attempt - 1] {
          case None =>
            if context in entries {
              return Interpret(entries[context]);
            }
            if last { return Nothing; }
          case Some(NotFound) => if last { return Nothing; }
          case Some(BackendError) => if last { return StoreError; }
        }
        attempt := attempt + 1;
      }
    }

    /** `set_tokens`; `works` says whether the backend accepts the write. */
    method SetTokens(context: string, tokens: TokenBundle, works: bool) returns (ok: bool)
      modifies this
      ensures ok == works
      ensures entries == if works then old(entries)[context := Encode(tokens)] else old(entries)
    {
      ok := works;
      if works {
        entries := entries[context := Encode(tokens)];
      }
    }

    /** `delete_tokens`. */
    method DeleteTokens(context: string, works: bool) returns (ok: bool)
      modifies this
      ensures ok == works
      ensures entries == if works then old(entries)[context := ""] else old(entries)
      ensures works ==> Content(entries, context) == Nothing
    {
      ok := works;
      if works {
        entries := entries[context := ""];
      }
    }
  }
}
