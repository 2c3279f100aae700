/** `config.py` and `config_handlers.py`: which URL and context a command runs with, and the two
    commands that rewrite `targets.toml`. */
module ConfigHandlers {
  import opened Optional
  import opened Targets
  import opened TargetsRoundTrip
  import opened ConfigDir
  import CredentialStore

  // ----- what the handlers see of targets.toml -----

  /** An old-format file holds a flat context: strict reading refuses it, lenient reading gives
      `targets` without that context. */
  datatype File = Missing | Unreadable | Readable(targets: TargetsFile, oldFormat: bool)

  function FileOf(text: Option<string>): File {
    if text == None then Missing
    else match ReadTargets(text.value, false)
      case Err(_) => Unreadable
      case Ok(t) => Readable(t, ReadTargets(text.value, true) != Ok(t))
  }

  /** The only thing strict reading adds is a refusal of the old format. */
  lemma StrictRefusesOldFormatOnly(text: string)
    ensures ReadTargets(text, true) == ReadTargets(text, false) || ReadTargets(text, true) == Err(OldFormat)
  {
  }

  function Contexts(f: File): map<string, ContextEntry> {
    if f.Readable? then f.targets.contexts else map[]
  }

  function CurrentContext(f: File): Option<string> {
    if f.Readable? then f.targets.currentContext else None
  }

  /** Whether a strict `load_targets` goes through. */
  predicate Loads(f: File) {
    f.Missing? || (f.Readable? && !f.oldFormat)
  }

  // ----- load_config -----

  datatype Config = Config(serviceUrl: string, contextName: Option<string>)

  /** `--context`, `PS_CLI_SERVICE_URL`, and `service_url` of the project file merged over the
      packaged default (`None` when that is no string). */
  datatype Invocation = Invocation(context: Option<string>, env: Option<string>, merged: Option<string>)

  function NamedContext(f: File, inv: Invocation): Option<string> {
    if inv.context.Some? then inv.context else CurrentContext(f)
  }

  function Resolve(f: File, inv: Invocation, valid: string -> bool): Option<Config> {
    if !Loads(f) || (inv.context.Some? && inv.context.value !in Contexts(f)) then None
    else
      var found :=
        if inv.env.Some? then if inv.env.value == "" then None else Some(Config(inv.env.value, None))
        else match NamedContext(f, inv)
          case Some(c) => if c in Contexts(f) then Some(Config(Contexts(f)[c].url, Some(c))) else None
          case None => if inv.merged.Some? then Some(Config(inv.merged.value, None)) else None;
      if found.Some? && valid(found.value.serviceUrl) then found else None
  }

  /** A command gets a context only with the URL recorded for it; the environment variable takes the
      URL without one, and does not excuse an undefined `--context`. */
  lemma ContextComesWithItsUrl(f: File, inv: Invocation, valid: string -> bool)
    ensures var r := Resolve(f, inv, valid);
      && (r.Some? && r.value.contextName.Some? ==>
            && Loads(f) && r.value.contextName.value in Contexts(f)
            && r.value.serviceUrl == Contexts(f)[r.value.contextName.value].url
            && r.value.contextName == NamedContext(f, inv))
      && (r.Some? && inv.env.Some? ==> r.value == Config(inv.env.value, None))
      && (inv.context.Some? && inv.context.value !in Contexts(f) ==> r == None)
      && (r.Some? ==> valid(r.value.serviceUrl) && Loads(f))
  {
  }

  /** `resolve_auth_override`: the overrides of the context that supplied the URL. */
  function AuthOverride(f: File, config: Config): Option<AuthOverrides> {
    if config.contextName.Some? && config.contextName.value in Contexts(f) then Contexts(f)[config.contextName.value].auth
    else None
  }

  /** Reads the file afresh; `failed` is the error raised for a file that does not load. */
  method ResolveAuthOverride(dir: Directory, config: Config) returns (failed: bool, auth: Option<AuthOverrides>)
    ensures failed <==> config.contextName.Some? && !Loads(FileOf(dir.targetsToml))
    ensures !failed ==> auth == AuthOverride(FileOf(dir.targetsToml), config)
  {
    if config.contextName == None { return false, None; }
    var loaded := dir.Loaded(true);
    if dir.targetsToml.Some? {
      StrictRefusesOldFormatOnly(dir.targetsToml.value);
    }
    if loaded == None { return false, None; }
    if loaded.value.Err? { return true, None; }
    var contexts := loaded.value.value.contexts;
    return false, if config.contextName.value in contexts then contexts[config.contextName.value].auth else None;
  }

  /** The URL and context that were found, if the URL is a valid one. */
  predicate Answers(r: Option<Config>, url: string, context: Option<string>, valid: string -> bool) {
    if valid(url) then r == Some(Config(url, context)) else r == None
  }

  /** `load_config`: a file that does not load, and a `--context` it does not define, are errors first;
      then the variable, `--context`, the selected context and the merged URL come in that order, and
      whichever is first decides, if only by failing. */
  method LoadConfig(dir: Directory, inv: Invocation, valid: string -> bool) returns (r: Option<Config>)
    ensures r == Resolve(FileOf(dir.targetsToml), inv, valid)
    ensures var file := dir.Loaded(true);
      file.Some? && file.value.Err? ==> r == None
    ensures var file := dir.Loaded(true);
      file == None || file.value.Ok? ==>
        var t := if file.Some? then file.value.value else TargetsFile(None, map[]);
        && (inv.context.Some? && inv.context.value !in t.contexts ==> r == None)
        && (inv.context.Some? && inv.context.value in t.contexts && inv.env == None ==>
              Answers(r, t.contexts[inv.context.value].url, inv.context, valid))
        && (inv.context == None && inv.env == None && t.currentContext.Some? ==>
              if t.currentContext.value in t.contexts
              then Answers(r, t.contexts[t.currentContext.value].url, t.currentContext, valid) else r == None)
        && (inv.context == None && inv.env == None && t.currentContext == None ==>
              if inv.merged.Some? then Answers(r, inv.merged.value, None, valid) else r == None)
        && ((inv.context.Some? ==> inv.context.value in t.contexts) && inv.env.Some? ==>
              if inv.env.value != "" then Answers(r, inv.env.value, None, valid) else r == None)
  {
    var loaded := dir.Loaded(true);
    if dir.targetsToml.Some? {
      StrictRefusesOldFormatOnly(dir.targetsToml.value);
    }
    if loaded.Some? && loaded.value.Err? {
      return None;
    }
    var contexts: map<string, ContextEntry>, current := map[], None;
    if loaded.Some? {
      contexts, current := loaded.value.value.contexts, loaded.value.value.currentContext;
    }
    if inv.context.Some? && inv.context.value !in contexts {
      return None;
    }
    var url: string, name := "", None;
    if inv.env.Some? {
      if inv.env.value == "" { return None; }
      url := inv.env.value;
    } else if inv.context.Some? {
      url, name := contexts[inv.context.value].url, inv.context;
    } else if current.Some? {
      if current.value !in contexts { return None; }
      url, name := contexts[current.value].url, current;
    } else {
      if inv.merged == None { return None; }
      url := inv.merged.value;
    }
    r := if valid(url) then Some(Config(url, name)) else None;
  }

  // ----- config set-context and use-context -----

  const NO_OVERRIDES := AuthOverrides(None, None, None, None)

  function Either<T>(flag: Option<T>, existing: Option<T>): Option<T> {
    if flag.Some? then flag else existing
  }

  /** Field by field, the flags over what was there. */
  function Over(flags: AuthOverrides, existing: AuthOverrides): AuthOverrides {
    AuthOverrides(Either(flags.issuer, existing.issuer), Either(flags.clientId, existing.clientId),
                  Either(flags.scopes, existing.scopes), Either(flags.audience, existing.audience))
  }

  /** `_merge_auth_overrides`. */
  function MergeAuth(existing: Option<AuthOverrides>, flags: AuthOverrides): (r: Option<AuthOverrides>)
    ensures r != Some(NO_OVERRIDES)
    ensures r == None <==> flags == NO_OVERRIDES && (existing == None || existing == Some(NO_OVERRIDES))
    ensures r.Some? ==>
      && (flags.issuer.Some? ==> r.value.issuer == flags.issuer)
      && (flags.clientId.Some? ==> r.value.clientId == flags.clientId)
      && (flags.scopes.Some? ==> r.value.scopes == flags.scopes)
      && (flags.audience.Some? ==> r.value.audience == flags.audience)
    ensures r.Some? ==>
      && (flags.issuer == None ==> r.value.issuer == if existing.Some? then existing.value.issuer else None)
      && (flags.clientId == None ==> r.value.clientId == if existing.Some? then existing.value.clientId else None)
      && (flags.scopes == None ==> r.value.scopes == if existing.Some? then existing.value.scopes else None)
      && (flags.audience == None ==> r.value.audience == if existing.Some? then existing.value.audience else None)
  {
    var old' := if existing.Some? then existing.value else NO_OVERRIDES;
    var issuer := if flags.issuer.Some? then flags.issuer else old'.issuer;
    var clientId := if flags.clientId.Some? then flags.clientId else old'.clientId;
    var scopes := if flags.scopes.Some? then flags.scopes else old'.scopes;
    var audience := if flags.audience.Some? then flags.audience else old'.audience;
    if issuer == None && clientId == None && scopes == None && audience == None then None
    else Some(AuthOverrides(issuer, clientId, scopes, audience))
  }

  /** Giving flags in two calls is giving both sets in one, the later ones on top. */
  lemma MergesCompose(existing: Option<AuthOverrides>, first: AuthOverrides, second: AuthOverrides)
    ensures MergeAuth(MergeAuth(existing, first), second) == MergeAuth(existing, Over(second, first))
  {
  }

  function EntryToWrite(f: File, name: string, url: string, flags: AuthOverrides): ContextEntry {
    ContextEntry(url, MergeAuth(if name in Contexts(f) then Contexts(f)[name].auth else None, flags))
  }

  /** What set-context writes. */
  function WithContext(f: File, name: string, url: string, flags: AuthOverrides): TargetsFile {
    TargetsFile(CurrentContext(f), Contexts(f)[name := EntryToWrite(f, name, url, flags)])
  }

  /** What a file reads as once the value is written to it. */
  ghost function Rewritten(t: TargetsFile): File {
    FileOf(Some(TextFor(t)))
  }

  /** A rewritten file holds the value exactly when its names are bare. */
  lemma RewrittenIffBare(t: TargetsFile)
    ensures Rewritten(t) == Readable(t, false) <==> NamesAreBare(t)
  {
    TextReadsBackIffBare(t, false);
    TextReadsBackIffBare(t, true);
  }

  ghost function AfterSetContext(f: File, name: string, url: string, flags: AuthOverrides): File {
    if f.Unreadable? then f else Rewritten(WithContext(f, name, url, flags))
  }

  predicate Selects(f: File, name: string) {
    Loads(f) && name in Contexts(f)
  }

  ghost function AfterUseContext(f: File, name: string): File {
    if Selects(f, name) then Rewritten(TargetsFile(Some(name), Contexts(f))) else f
  }

  predicate NamesBare(f: File) {
    forall n :: n in Contexts(f) ==> IsBare(n)
  }

  /** A file whose names are bare keeps such names, and every other context as it was. */
  lemma BareFileIsKept(f: File, name: string, url: string, flags: AuthOverrides)
    requires NamesBare(f) && IsBare(name)
    ensures !f.Unreadable? ==> AfterSetContext(f, name, url, flags) == Readable(WithContext(f, name, url, flags), false)
    ensures AfterUseContext(f, name) ==
      if Selects(f, name) then Readable(TargetsFile(Some(name), Contexts(f)), false) else f
    ensures NamesBare(AfterSetContext(f, name, url, flags)) && NamesBare(AfterUseContext(f, name))
  {
    RewrittenIffBare(WithContext(f, name, url, flags));
    RewrittenIffBare(TargetsFile(Some(name), Contexts(f)));
  }

  datatype SetOutcome = Done | InvalidFile | StoreFailed

  /** `handle_config_set_context`; the parser lets only bare names through. The file then holds what
      was meant exactly when every name that was in it is bare. */
  method HandleConfigSetContext(dir: Directory, store: CredentialStore.Store, name: string, url: string,
                                flags: AuthOverrides, deleteWorks: bool)
      returns (r: SetOutcome)
    requires IsBare(name) && dir as object != store
    modifies dir, store
    ensures FileOf(dir.targetsToml) == AfterSetContext(old(FileOf(dir.targetsToml)), name, url, flags)
    ensures !r.InvalidFile? ==>
      (FileOf(dir.targetsToml) == Readable(WithContext(old(FileOf(dir.targetsToml)), name, url, flags), false)
       <==> NamesBare(old(FileOf(dir.targetsToml))))
    ensures !r.InvalidFile? && NamesBare(old(FileOf(dir.targetsToml))) ==>
      var f, before := FileOf(dir.targetsToml), old(dir.Loaded(false));
      var t := if before.Some? then before.value.value else TargetsFile(None, map[]);
      && f.Readable? && f.targets.currentContext == t.currentContext
      && f.targets.contexts == t.contexts[name :=
           ContextEntry(url, MergeAuth(if name in t.contexts then t.contexts[name].auth else None, flags))]
    ensures store.entries == if r.Done? then old(store.entries)[name := ""] else old(store.entries)
    ensures r == if old(FileOf(dir.targetsToml)).Unreadable? then InvalidFile
                 else if deleteWorks then Done else StoreFailed
    ensures r.InvalidFile? ==> dir.targetsToml == old(dir.targetsToml)
  {
    ghost var f := FileOf(dir.targetsToml);
    var existing := dir.Loaded(false);
    if existing.Some? && existing.value.Err? {
      return InvalidFile;
    }
    var contexts: map<string, ContextEntry>, current := map[], None;
    if existing.Some? {
      contexts, current := existing.value.value.contexts, existing.value.value.currentContext;
    }
    var merged := MergeAuth(if name in contexts then contexts[name].auth else None, flags);
    contexts := contexts[name := ContextEntry(url, merged)];
    var t := TargetsFile(current, contexts);
    assert t == WithContext(f, name, url, flags);
    BareWithOneMore(f, name, t);
    RewrittenIffBare(t);
    dir.WriteTargets(t);
    var ok := store.DeleteTokens(name, deleteWorks);
    r := if ok then Done else StoreFailed;
  }

  lemma BareWithOneMore(f: File, name: string, t: TargetsFile)
    requires IsBare(name) && t.contexts.Keys == Contexts(f).Keys + {name}
    ensures NamesAreBare(t) <==> NamesBare(f)
  {
    assert forall n :: n in t.contexts <==> n in Contexts(f) || n == name;
  }

  /** `handle_config_use_context`, with the same condition on the names. */
  method HandleConfigUseContext(dir: Directory, name: string) returns (ok: bool)
    modifies dir
    ensures FileOf(dir.targetsToml) == AfterUseContext(old(FileOf(dir.targetsToml)), name)
    ensures ok == Selects(old(FileOf(dir.targetsToml)), name)
    ensures ok ==>
      (FileOf(dir.targetsToml) == Readable(TargetsFile(Some(name), Contexts(old(FileOf(dir.targetsToml)))), false)
       <==> NamesBare(old(FileOf(dir.targetsToml))))
    ensures !ok ==> dir.targetsToml == old(dir.targetsToml)
  {
    ghost var f := FileOf(dir.targetsToml);
    var existing := dir.Loaded(true);
    if dir.targetsToml.Some? {
      StrictRefusesOldFormatOnly(dir.targetsToml.value);
    }
    if existing == None || existing.value.Err? || name !in existing.value.value.contexts {
      return false;
    }
    var t := TargetsFile(Some(name), existing.value.value.contexts);
    assert t.contexts == Contexts(f);
    RewrittenIffBare(t);
    dir.WriteTargets(t);
    ok := true;
  }
}
