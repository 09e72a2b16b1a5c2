/** The shared engine and its memo under concurrency: any number of requests that interleave
    in single lock operations while the configuration changes. A request keeps the engine and
    the memo it was handed, also when others have been built since. */
module SharedMemo {
  import opened Wrappers
  import opened Lru
  import opened Stale
  import opened Rewrite
  import opened Rewriter
  import opened Runs

  // ---- One table ----

  /** The entry is what `answer` gives for a question with its key. */
  ghost predicate True<Q(!new), V>(entry: (nat, V), key: Q -> nat, answer: Q -> V) {
    exists q :: key(q) == entry.0 && answer(q) == entry.1
  }

  ghost predicate Truthful<Q(!new), V>(t: Table<nat, V>, cap: nat, key: Q -> nat, answer: Q -> V) {
    Distinct(t) && |t| <= cap && forall i :: 0 <= i < |t| ==> True(t[i], key, answer)
  }

  ghost predicate Injective<Q(!new)>(key: Q -> nat) { forall p, q :: key(p) == key(q) ==> p == q }

  /** The table after a lookup: what is found becomes the most recently used. */
  function Promote<V>(t: Table<nat, V>, k: nat): Table<nat, V> {
    var i := IndexOf(t, k);
    if i < |t| then t[..i] + t[i + 1..] + [t[i]] else t
  }

  lemma LookupIsTrue<Q(!new), V>(t: Table<nat, V>, cap: nat, key: Q -> nat, answer: Q -> V, q: Q)
    requires Truthful(t, cap, key, answer) && Injective(key)
    ensures Peek(t, key(q)).Some? ==> Peek(t, key(q)).value == answer(q)
    ensures Truthful(Promote(t, key(q)), cap, key, answer)
  {
    var i := IndexOf(t, key(q));
    if i < |t| {
      assert True(t[i], key, answer);
      Promoted(t, key(q), t[i].1);
      var r := Promote(t, key(q));
      assert forall j :: 0 <= j < |r| ==> r[j] in t;
    }
  }

  lemma StoreIsTrue<Q(!new), V>(t: Table<nat, V>, cap: nat, key: Q -> nat, answer: Q -> V, q: Q)
    requires Truthful(t, cap, key, answer) && cap > 0
    ensures Truthful(Put(t, cap, key(q), answer(q)), cap, key, answer)
  {
    var r := Put(t, cap, key(q), answer(q));
    PutProperties(t, cap, key(q), answer(q));
    assert True((key(q), answer(q)), key, answer);
    forall j | 0 <= j < |r| ensures True(r[j], key, answer) {
      assert r[j] in t || r[j] == (key(q), answer(q));
    }
  }

  // ---- The requests ----

  datatype Question = Judge(s: string) | Stub(reason: Reason, s: string)

  datatype Answer = Judged(verdict: Verdict) | Stubbed(stub: string)

  type StubKey = (Reason, string)

  /** How an engine answers. */
  datatype Craft = Craft(judge: string -> Verdict, stub: StubKey -> string)

  function CraftOf(e: Engine): Craft { Craft(s => VerdictOf(e, s), (k: StubKey) => StubMaker(e)(k.0, k.1)) }

  function AnswerBy(craft: Craft, q: Question): Answer {
    match q case Judge(s) => Judged(craft.judge(s)) case Stub(r, s) => Stubbed(craft.stub((r, s)))
  }

  /** An engine with its memo, built from one configuration. */
  datatype Built = Built(config: Config, craft: Craft, inner: Table<nat, Verdict>, stale: Table<nat, string>)

  type Heard = seq<(Question, Answer)>

  /** A request: not yet handed an engine, refused one, between two questions, or working out
      an answer that the memo did not have. `at` is the engine it holds. */
  datatype Pc =
    | Idle
    | Refused
    | Holding(at: nat, config: Config, heard: Heard)
    | Missed(at: nat, config: Config, heard: Heard, q: Question)

  /** `current` is the engine that the next request is handed, if its configuration is the same. */
  datatype System = System(
    workshop: Workshop, crafts: Config -> Option<Craft>, built: seq<Built>, current: Option<nat>, callers: seq<Pc>)

  /** A request arrives with the configuration it loaded, looks a question up, or stores the
      answer it worked out. */
  datatype Event = Arrive(i: nat, config: Config) | Ask(i: nat, q: Question) | Store(i: nat)

  function StubKeyOf(keys: Keys): StubKey -> nat { (k: StubKey) => keys.stub(k.0, k.1) }

  function Found(keys: Keys, b: Built, q: Question): Option<Answer> {
    match q
    case Judge(s) => (match Peek(b.inner, keys.text(s)) case Some(v) => Some(Judged(v)) case None => None)
    case Stub(r, s) => (match Peek(b.stale, StubKeyOf(keys)((r, s))) case Some(v) => Some(Stubbed(v)) case None => None)
  }

  function Looked(keys: Keys, b: Built, q: Question): Built {
    match q
    case Judge(s) => b.(inner := Promote(b.inner, keys.text(s)))
    case Stub(r, s) => b.(stale := Promote(b.stale, StubKeyOf(keys)((r, s))))
  }

  function Stored(keys: Keys, b: Built, q: Question): Built {
    match q
    case Judge(s) => b.(inner := Put(b.inner, MEMO_CAPACITY, keys.text(s), b.craft.judge(s)))
    case Stub(r, s) => b.(stale := Put(b.stale, MEMO_CAPACITY, StubKeyOf(keys)((r, s)), b.craft.stub((r, s))))
  }

  predicate IsCurrent(s: System, config: Config) {
    && s.current.Some? && s.current.value < |s.built|
    && s.workshop.fingerprint(s.built[s.current.value].config) == s.workshop.fingerprint(config)
  }

  /** `shared_engine`, in one piece: it holds the lock of the slot. */
  function Arrived(s: System, i: nat, config: Config): System
    requires i < |s.callers|
  {
    if !config.enabled || !config.autoEnabled then s.(callers := s.callers[i := Refused])
    else if IsCurrent(s, config) then s.(callers := s.callers[i := Holding(s.current.value, config, [])])
    else
      match s.crafts(config)
      case None => s.(callers := s.callers[i := Refused])
      case Some(craft) =>
        s.(callers := s.callers[i := Holding(|s.built|, config, [])], current := Some(|s.built|),
          built := s.built + [Built(config, craft, [], [])])
  }

  function Asked(s: System, i: nat, q: Question): System
    requires i < |s.callers| && s.callers[i].Holding? && s.callers[i].at < |s.built|
  {
    var Holding(at, config, heard) := s.callers[i];
    var t := s.(built := s.built[at := Looked(s.workshop.keys, s.built[at], q)]);
    match Found(s.workshop.keys, s.built[at], q)
    case Some(a) => t.(callers := s.callers[i := Holding(at, config, heard + [(q, a)])])
    case None => t.(callers := s.callers[i := Missed(at, config, heard, q)])
  }

  function StoredBy(s: System, i: nat): System
    requires i < |s.callers| && s.callers[i].Missed? && s.callers[i].at < |s.built|
  {
    var Missed(at, config, heard, q) := s.callers[i];
    s.(built := s.built[at := Stored(s.workshop.keys, s.built[at], q)],
      callers := s.callers[i := Holding(at, config, heard + [(q, AnswerBy(s.built[at].craft, q))])])
  }

  function Try(s: System, e: Event): Option<System> {
    match e
    case Arrive(i, config) => if i < |s.callers| && s.callers[i].Idle? then Some(Arrived(s, i, config)) else None
    case Ask(i, q) =>
      if i < |s.callers| && s.callers[i].Holding? && s.callers[i].at < |s.built| then Some(Asked(s, i, q)) else None
    case Store(i) =>
      if i < |s.callers| && s.callers[i].Missed? && s.callers[i].at < |s.built| then Some(StoredBy(s, i)) else None
  }

  // ---- What every step keeps ----

  /** An engine is that of its configuration, and its memo is its own. */
  ghost predicate BuiltOk(s: System, b: Built) {
    && s.crafts(b.config) == Some(b.craft)
    && Truthful(b.inner, MEMO_CAPACITY, s.workshop.keys.text, b.craft.judge)
    && Truthful(b.stale, MEMO_CAPACITY, StubKeyOf(s.workshop.keys), b.craft.stub)
  }

  predicate HeardOk(craft: Craft, heard: Heard) {
    forall k :: 0 <= k < |heard| ==> heard[k].1 == AnswerBy(craft, heard[k].0)
  }

  ghost predicate CallerOk(s: System, pc: Pc) {
    pc.Holding? || pc.Missed? ==>
      pc.at < |s.built| && s.built[pc.at].config == pc.config && HeardOk(s.built[pc.at].craft, pc.heard)
  }

  ghost predicate Inv(s: System) {
    && Distinguishes(s.workshop) && Injective(s.workshop.keys.text) && Injective(StubKeyOf(s.workshop.keys))
    && (forall k :: 0 <= k < |s.built| ==> BuiltOk(s, s.built[k]))
    && (forall i :: 0 <= i < |s.callers| ==> CallerOk(s, s.callers[i]))
  }

  /** A step that changes one engine's memo and one caller. */
  lemma OneChanged(s: System, at: nat, b: Built, i: nat, pc: Pc)
    requires Inv(s) && at < |s.built| && i < |s.callers|
    requires BuiltOk(s, b) && b.config == s.built[at].config && b.craft == s.built[at].craft
    requires CallerOk(s, pc)
    ensures Inv(s.(built := s.built[at := b], callers := s.callers[i := pc]))
  {
    var t := s.(built := s.built[at := b], callers := s.callers[i := pc]);
    forall k | 0 <= k < |t.built| ensures BuiltOk(t, t.built[k]) {
      assert BuiltOk(s, s.built[k]);
    }
    forall j | 0 <= j < |t.callers| ensures CallerOk(t, t.callers[j]) {
      assert CallerOk(s, s.callers[j]);
    }
  }

  lemma AskKeeps(s: System, i: nat, q: Question)
    requires Inv(s) && Try(s, Ask(i, q)).Some?
    ensures Inv(Asked(s, i, q))
  {
    var Holding(at, config, heard) := s.callers[i];
    var (b, keys) := (s.built[at], s.workshop.keys);
    assert BuiltOk(s, b) && CallerOk(s, s.callers[i]);
    match q {
      case Judge(text) => LookupIsTrue(b.inner, MEMO_CAPACITY, keys.text, b.craft.judge, text);
      case Stub(r, text) => LookupIsTrue(b.stale, MEMO_CAPACITY, StubKeyOf(keys), b.craft.stub, (r, text));
    }
    var pc := match Found(keys, b, q)
              case Some(a) => Holding(at, config, heard + [(q, a)])
              case None => Missed(at, config, heard, q);
    OneChanged(s, at, Looked(keys, b, q), i, pc);
  }

  lemma StoreKeeps(s: System, i: nat)
    requires Inv(s) && Try(s, Store(i)).Some?
    ensures Inv(StoredBy(s, i))
  {
    var Missed(at, config, heard, q) := s.callers[i];
    var (b, keys) := (s.built[at], s.workshop.keys);
    assert BuiltOk(s, b) && CallerOk(s, s.callers[i]);
    match q {
      case Judge(text) => StoreIsTrue(b.inner, MEMO_CAPACITY, keys.text, b.craft.judge, text);
      case Stub(r, text) => StoreIsTrue(b.stale, MEMO_CAPACITY, StubKeyOf(keys), b.craft.stub, (r, text));
    }
    OneChanged(s, at, Stored(keys, b, q), i, Holding(at, config, heard + [(q, AnswerBy(b.craft, q))]));
  }

  lemma ArriveKeeps(s: System, i: nat, config: Config)
    requires Inv(s) && Try(s, Arrive(i, config)).Some?
    ensures Inv(Arrived(s, i, config))
  {
    var t := Arrived(s, i, config);
    forall k | 0 <= k < |t.built| ensures BuiltOk(t, t.built[k]) {
      assert k < |s.built| ==> BuiltOk(s, s.built[k]);
    }
    forall j | 0 <= j < |t.callers| ensures CallerOk(t, t.callers[j]) {
      assert CallerOk(s, s.callers[j]);
    }
  }

  /** Every step of every request, under any configuration, keeps every memo its own engine's
      and every request at the engine of its own configuration. */
  lemma StepKeeps(s: System, e: Event)
    requires Inv(s) && Try(s, e).Some?
    ensures Inv(Try(s, e).value)
  {
    match e
    case Arrive(i, config) => ArriveKeeps(s, i, config);
    case Ask(i, q) => AskKeeps(s, i, q);
    case Store(i) => StoreKeeps(s, i);
  }

  // ---- Runs ----

  ghost predicate Starts(s: System) {
    && Distinguishes(s.workshop) && CraftsOk(s)
    && s.built == [] && s.current == None
    && forall i :: 0 <= i < |s.callers| ==> s.callers[i] == Idle
  }

  ghost predicate Reachable(t: System) { exists s :: Starts(s) && Leads(Try, s, t) }

  lemma StartsOk(s: System)
    requires Starts(s)
    ensures Inv(s)
  {
    var keys := s.workshop.keys;
    forall p, q | StubKeyOf(keys)(p) == StubKeyOf(keys)(q) ensures p == q {
      assert keys.stub(p.0, p.1) == keys.stub(q.0, q.1);
    }
  }

  /** In every reachable state, whatever was asked by whom in which order and however the
      configuration changed meanwhile, every answer a request has heard is the one that the
      engine of its own configuration gives without a memo. */
  lemma AnswersAreItsOwnEngines(t: System, i: nat)
    requires Reachable(t) && i < |t.callers| && (t.callers[i].Holding? || t.callers[i].Missed?)
    ensures var engine := t.workshop.build(t.callers[i].config);
            engine.Some? && HeardOk(CraftOf(engine.value), t.callers[i].heard)
  {
    ReachableKeeps(t);
    assert CallerOk(t, t.callers[i]) && BuiltOk(t, t.built[t.callers[i].at]);
  }

  ghost predicate CraftsOk(s: System) {
    forall c :: s.crafts(c) == match s.workshop.build(c) case Some(e) => Some(CraftOf(e)) case None => None
  }

  lemma ReachableKeeps(t: System)
    requires Reachable(t)
    ensures Inv(t) && CraftsOk(t)
  {
    var s :| Starts(s) && Leads(Try, s, t);
    StartsOk(s);
    LeadsSame(s, t);
    CraftsSame(s, t);
  }

  ghost predicate Same(s: System, t: System) { t.crafts == s.crafts && t.workshop == s.workshop }

  lemma CraftsSame(s: System, t: System)
    requires CraftsOk(s) && Same(s, t)
    ensures CraftsOk(t)
  {
    forall c ensures t.crafts(c) == match t.workshop.build(c) case Some(e) => Some(CraftOf(e)) case None => None {
      assert s.crafts(c) == match s.workshop.build(c) case Some(e) => Some(CraftOf(e)) case None => None;
    }
  }

  lemma LeadsSame(s: System, t: System)
    requires Inv(s) && Leads(Try, s, t)
    ensures Inv(t) && Same(s, t)
  {
    var keeps := u => Inv(u) && Same(s, u);
    forall u, e | keeps(u) && Try(u, e).Some? ensures keeps(Try(u, e).value) {
      StepKeeps(u, e);
    }
    LeadsKeeps(Try, keeps, s, t);
  }

  /** No memo outgrows its bound, and requests that share one came with one configuration. */
  lemma MemosAreBoundedAndUnmixed(t: System, i: nat, j: nat)
    requires Reachable(t) && i < |t.callers| && j < |t.callers| && t.callers[i].Holding? && t.callers[j].Holding?
    ensures t.callers[i].at < |t.built|
    ensures |t.built[t.callers[i].at].inner| <= MEMO_CAPACITY && |t.built[t.callers[i].at].stale| <= MEMO_CAPACITY
    ensures t.callers[i].at == t.callers[j].at ==> t.callers[i].config == t.callers[j].config
  {
    ReachableKeeps(t);
    assert CallerOk(t, t.callers[i]) && CallerOk(t, t.callers[j]) && BuiltOk(t, t.built[t.callers[i].at]);
  }
}
