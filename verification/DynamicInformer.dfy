/** pkg/konnector/controllers/dynamic: handlers that can join and leave a running informer. */
module DynamicInformer {
  import opened Kube

  function Digit(d: nat): char
    requires d < 10
  {
    ('0' as int + d) as char
  }

  /** %d */
  function Decimal(n: nat): string {
    if n < 10 then [Digit(n)] else Decimal(n / 10) + [Digit(n % 10)]
  }

  /** fmt.Sprintf("%s-%d", handlerName, counter) */
  function HandlerKey(name: string, counter: nat): string {
    name + "-" + Decimal(counter)
  }

  /** Reads a number back from its decimal digits. */
  function Number(s: string): int {
    if s == "" then 0 else 10 * Number(s[..|s| - 1]) + (s[|s| - 1] as int - '0' as int)
  }

  lemma {:induction false} DecimalReadsBack(n: nat)
    ensures Number(Decimal(n)) == n && '-' !in Decimal(n)
  {
    if n < 10 {
      assert Decimal(n)[..0] == "";
    } else {
      DecimalReadsBack(n / 10);
      var s := Decimal(n);
      assert s[..|s| - 1] == Decimal(n / 10) && s[|s| - 1] == Digit(n % 10);
    }
  }

  function AfterLastDash(s: string): string {
    if s == "" || s[|s| - 1] == '-' then "" else AfterLastDash(s[..|s| - 1]) + [s[|s| - 1]]
  }

  lemma {:induction false} SuffixReadsBack(prefix: string, suffix: string)
    requires '-' !in suffix
    ensures AfterLastDash(prefix + "-" + suffix) == suffix
  {
    var s := prefix + "-" + suffix;
    if suffix == "" {
      assert s[|s| - 1] == '-';
    } else {
      var last := |suffix| - 1;
      assert s[..|s| - 1] == prefix + "-" + suffix[..last];
      assert s[|s| - 1] == suffix[last];
      SuffixReadsBack(prefix, suffix[..last]);
    }
  }

  /** The number is what follows the last dash, so registrations with different counters have different keys, whatever
      their names. */
  lemma KeysNeverCollide(name1: string, counter1: nat, name2: string, counter2: nat)
    requires HandlerKey(name1, counter1) == HandlerKey(name2, counter2)
    ensures name1 == name2 && counter1 == counter2
  {
    var k, d := HandlerKey(name1, counter1), Decimal(counter1);
    DecimalReadsBack(counter1);
    DecimalReadsBack(counter2);
    SuffixReadsBack(name1, d);
    SuffixReadsBack(name2, Decimal(counter2));
    assert k[..|k| - |d| - 1] == name1 == name2;
  }

  type Item = nat

  /** What the informer tells its one static handler, some time after it changed the store. */
  datatype Event = Added(item: Item) | Updated(item: Item) | Deleted(item: Item)

  function Existing(e: Event): set<Item> {
    if e.Deleted? then {} else {e.item}
  }

  /** The latest of these events about the item. */
  function LastAbout(es: seq<Event>, item: Item): Option<Event> {
    if es == [] then None
    else if es[|es| - 1].item == item then Some(es[|es| - 1])
    else LastAbout(es[..|es| - 1], item)
  }

  lemma LastAfterAppend(es: seq<Event>, e: Event, item: Item)
    ensures LastAbout(es + [e], item) == if e.item == item then Some(e) else LastAbout(es, item)
  {
    assert (es + [e])[..|es|] == es;
  }

  lemma {:induction false} LastWithoutFirst(es: seq<Event>, item: Item)
    requires es != []
    ensures LastAbout(es, item) ==
            if LastAbout(es[1..], item).None? && es[0].item == item then Some(es[0]) else LastAbout(es[1..], item)
  {
    if |es| == 1 {
      assert es[..0] == [] && es[1..] == [];
    } else {
      LastWithoutFirst(es[..|es| - 1], item);
      assert es[1..][..|es| - 2] == es[..|es| - 1][1..];
    }
  }

  /** Going by what it has heard last, the handler takes the item to exist. */
  predicate Believed(log: seq<Event>, item: Item) {
    LastAbout(log, item).Some? && !LastAbout(log, item).value.Deleted?
  }

  /** The last queued event about an item says whether it is in the store. */
  ghost predicate Coherent(queue: seq<Event>, store: set<Item>) {
    forall item | LastAbout(queue, item).Some? :: LastAbout(queue, item).value.Deleted? <==> item !in store
  }

  /** What a handler has heard, has yet to be told from its listing, and which listed items were deleted before that.
      */
  datatype Hearing = Hearing(listed: bool, toReplay: seq<Item>, log: seq<Event>, overtaken: set<Item>) {
    /** About an item without queued events: once it is listed and replayed, the handler is right but for what was
        overtaken; and what is still to be replayed exists but for what was overtaken. */
    predicate RightAbout(store: set<Item>, item: Item) {
      if item in toReplay then item in store <==> item !in overtaken
      else if listed then (Believed(log, item) <==> item in store || item in overtaken) && item !in store * overtaken
      else Believed(log, item) ==> item in store
    }

    ghost predicate Right(queue: seq<Event>, store: set<Item>) {
      && (!listed ==> toReplay == [] && overtaken == {})
      && forall item | LastAbout(queue, item).None? :: RightAbout(store, item)
    }

    function Hears(e: Event): Hearing {
      this.(log := log + [e],
            overtaken := if e.Deleted? && e.item in toReplay then overtaken + {e.item} else overtaken - {e.item})
    }

    function Lists(objs: seq<Item>): Hearing {
      this.(listed := true, toReplay := objs)
    }

    function Replays(): Hearing
      requires toReplay != []
    {
      this.(toReplay := toReplay[1..], log := log + [Added(toReplay[0])])
    }
  }

  function Changed(store: set<Item>, e: Event): set<Item> {
    if e.Deleted? then store - {e.item} else store + {e.item}
  }

  lemma QueueingKeepsRight(queue: seq<Event>, store: set<Item>, e: Event)
    requires Coherent(queue, store)
    ensures Coherent(queue + [e], Changed(store, e))
    ensures forall h: Hearing | h.Right(queue, store) :: h.Right(queue + [e], Changed(store, e))
  {
    forall item
      ensures LastAbout(queue + [e], item) == if e.item == item then Some(e) else LastAbout(queue, item)
    {
      LastAfterAppend(queue, e, item);
    }
  }

  lemma DispatchKeepsCoherent(queue: seq<Event>, store: set<Item>)
    requires queue != [] && Coherent(queue, store)
    ensures Coherent(queue[1..], store)
  {
    forall item | LastAbout(queue[1..], item).Some?
      ensures LastAbout(queue, item) == LastAbout(queue[1..], item)
    {
      LastWithoutFirst(queue, item);
    }
  }

  lemma DispatchKeepsRight(h: Hearing, queue: seq<Event>, store: set<Item>)
    requires queue != [] && Coherent(queue, store) && h.Right(queue, store)
    ensures h.Hears(queue[0]).Right(queue[1..], store)
  {
    forall item | LastAbout(queue[1..], item).None?
      ensures h.Hears(queue[0]).RightAbout(store, item)
    {
      LastWithoutFirst(queue, item);
      LastAfterAppend(h.log, queue[0], item);
    }
  }

  lemma ReplayKeepsRight(h: Hearing, queue: seq<Event>, store: set<Item>)
    requires h.toReplay != [] && h.Right(queue, store)
    ensures h.Replays().Right(queue, store)
  {
    assert h.toReplay == [h.toReplay[0]] + h.toReplay[1..];
    forall item | LastAbout(queue, item).None?
      ensures h.Replays().RightAbout(store, item)
    {
      LastAfterAppend(h.log, Added(h.toReplay[0]), item);
    }
  }

  lemma ListingIsRight(h: Hearing, queue: seq<Event>, store: set<Item>, objs: seq<Item>)
    requires h.Right(queue, store) && !h.listed && forall item :: item in objs <==> item in store
    ensures h.Lists(objs).Right(queue, store)
  {
  }

  /** One call of AddDynamicEventHandler. */
  class Registration {
    ghost const name: string
    ghost const index: nat
    /** What the listing loop has still to hand over. */
    var toReplay: seq<Item>
    /** All that the handler has been told, in this order. */
    var log: seq<Event>
    /** What it has been told to exist. */
    ghost var delivered: set<Item>
    /** What was in the store at listing time or came into it since the registration. */
    ghost var due: set<Item>
    var listed: bool
    /** The listed items that the handler heard to be deleted before they were replayed, and nothing since. */
    ghost var overtaken: set<Item>

    constructor (ghost name: string, ghost index: nat)
      ensures this.name == name && this.index == index && delivered == due == {}
      ensures Now() == Hearing(false, [], [], {})
    {
      this.name, this.index, toReplay, log := name, index, [], [];
      delivered, due, listed, overtaken := {}, {}, false, {};
    }

    ghost function Now(): Hearing
      reads this
    {
      Hearing(listed, toReplay, log, overtaken)
    }

    method Hear(e: Event)
      modifies this`log, this`delivered, this`overtaken
      ensures Now() == old(Now()).Hears(e) && delivered == old(delivered) + Existing(e)
    {
      overtaken := old(Now()).Hears(e).overtaken;
      log, delivered := log + [e], delivered + Existing(e);
    }
  }

  class SharedInformer {
    var store: set<Item>
    var queue: seq<Event>
    var counter: nat
    var handlers: map<string, Registration>

    constructor ()
      ensures Valid() && handlers == map[] && store == {} && queue == [] && counter == 0
    {
      store, queue, counter, handlers := {}, [], 0, map[];
    }

    ghost function Registrations(): set<Registration>
      reads this
    {
      set k | k in handlers :: handlers[k]
    }

    ghost predicate Queued(item: Item)
      reads this`queue
    {
      exists i :: 0 <= i < |queue| && queue[i] == Added(item)
    }

    /** Each registration sits under its own key, whatever it is due has been delivered, is about to be replayed, or
        is still in the queue, and its handler is right about all items without queued events. */
    ghost predicate Valid()
      reads this, Registrations()
    {
      && Coherent(queue, store)
      && forall k | k in handlers ::
           && k == HandlerKey(handlers[k].name, handlers[k].index) && handlers[k].index < counter
           && handlers[k].Now().Right(queue, store)
           && forall item | item in handlers[k].due ::
                item in handlers[k].delivered || item in handlers[k].toReplay || Queued(item)
    }

    /** The informer takes in an object: the store changes first, the event is dispatched later. */
    method ItemAdded(item: Item)
      requires Valid()
      modifies this`store, this`queue, Registrations()
      ensures Valid() && store == old(store) + {item} && queue == old(queue) + [Added(item)]
      ensures forall r | r in Registrations() ::
                r.due == old(r.due) + {item} && r.delivered == old(r.delivered) && r.Now() == old(r.Now())
    {
      QueueingKeepsRight(queue, store, Added(item));
      store := store + {item};
      QueueAppended(Added(item));
      queue := queue + [Added(item)];
      ghost var rs := Registrations();
      forall r | r in rs {
        r.due := r.due + {item};
      }
      assert queue[|queue| - 1] == Added(item);
    }

    lemma QueueAppended(e: Event)
      ensures forall item | Queued(item) :: exists i :: 0 <= i < |queue| + 1 && (queue + [e])[i] == Added(item)
    {
      forall item | Queued(item)
        ensures exists i :: 0 <= i < |queue| + 1 && (queue + [e])[i] == Added(item)
      {
        var i :| 0 <= i < |queue| && queue[i] == Added(item);
        assert (queue + [e])[i] == Added(item);
      }
    }

    /** The informer takes in a change of an object it has. */
    method ItemChanged(e: Event)
      requires Valid() && !e.Added? && e.item in store
      modifies this`store, this`queue
      ensures Valid() && queue == old(queue) + [e] && store == Changed(old(store), e)
    {
      QueueingKeepsRight(queue, store, e);
      if e.Deleted? {
        store := store - {e.item};
      }
      assert store == Changed(old(store), e);
      QueueAppended(e);
      queue := queue + [e];
    }

    /** The static handler passes the oldest event on to every registered handler. */
    method Dispatch()
      requires Valid() && queue != []
      modifies this`queue, Registrations()
      ensures Valid() && queue == old(queue)[1..]
      ensures forall r | r in Registrations() ::
                && r.log == old(r.log) + [old(queue)[0]] && r.toReplay == old(r.toReplay)
                && r.Now() == old(r.Now()).Hears(old(queue)[0]) && r.due == old(r.due)
                && r.delivered == old(r.delivered) + Existing(old(queue)[0])
    {
      var e := queue[0];
      DispatchKeepsCoherent(queue, store);
      forall k | k in handlers
        ensures handlers[k].Now().Hears(e).Right(queue[1..], store)
      {
        DispatchKeepsRight(handlers[k].Now(), queue, store);
      }
      QueueShortened();
      Tell(e);
      queue := queue[1..];
    }

    lemma QueueShortened()
      requires queue != []
      ensures forall item | Queued(item) && queue[0] != Added(item) ::
                exists i :: 0 <= i < |queue[1..]| && queue[1..][i] == Added(item)
    {
      forall item | Queued(item) && queue[0] != Added(item)
        ensures exists i :: 0 <= i < |queue[1..]| && queue[1..][i] == Added(item)
      {
        var i :| 0 <= i < |queue| && queue[i] == Added(item);
        assert queue[1..][i - 1] == Added(item);
      }
    }

    method Tell(e: Event)
      requires forall k | k in handlers :: k == HandlerKey(handlers[k].name, handlers[k].index)
      modifies Registrations()
      ensures forall k | k in handlers ::
                && handlers[k].Now() == old(handlers[k].Now()).Hears(e) && handlers[k].due == old(handlers[k].due)
                && handlers[k].delivered == old(handlers[k].delivered) + Existing(e)
    {
      var todo := handlers.Keys;
      while todo != {}
        invariant todo <= handlers.Keys
        invariant forall k | k in handlers :: handlers[k].due == old(handlers[k].due)
        invariant forall k | k in todo ::
                    handlers[k].Now() == old(handlers[k].Now()) && handlers[k].delivered == old(handlers[k].delivered)
        invariant forall k | k in handlers && k !in todo ::
                    && handlers[k].Now() == old(handlers[k].Now()).Hears(e)
                    && handlers[k].delivered == old(handlers[k].delivered) + Existing(e)
        modifies Registrations()
        decreases todo
      {
        var k :| k in todo;
        todo := todo - {k};
        handlers[k].Hear(e);
      }
    }

    /** The locked part of AddDynamicEventHandler: a new entry that overwrites no other. */
    method Register(name: string) returns (r: Registration)
      requires Valid()
      modifies this`handlers, this`counter
      ensures Valid() && fresh(r) && r.Now() == Hearing(false, [], [], {}) && r.delivered == r.due == {}
      ensures HandlerKey(name, old(counter)) !in old(handlers) && counter == old(counter) + 1
      ensures handlers == old(handlers)[HandlerKey(name, old(counter)) := r] && r.name == name
    {
      r := new Registration(name, counter);
      var key := HandlerKey(name, counter);
      if key in handlers {
        KeysNeverCollide(name, counter, handlers[key].name, handlers[key].index);
      }
      handlers := handlers[key := r];
      counter := counter + 1;
    }

    /** The store as a list, in no particular order. */
    method Listing() returns (objs: seq<Item>)
      ensures forall item :: item in objs <==> item in store
    {
      objs := [];
      var todo := store;
      while todo != {}
        invariant todo <= store
        invariant forall item :: item in objs <==> item in store - todo
        decreases todo
      {
        var item :| item in todo;
        todo := todo - {item};
        objs := objs + [item];
      }
    }

    /** The listing that follows, in some order: from here on all that is in the store is due. */
    method ListStore(r: Registration, objs: seq<Item>)
      requires Valid() && r in Registrations() && !r.listed && forall item :: item in objs <==> item in store
      modifies r
      ensures Valid() && r.due == old(r.due) + store
      ensures r.Now() == old(r.Now()).Lists(objs) && r.delivered == old(r.delivered)
    {
      ListingIsRight(r.Now(), queue, store, objs);
      r.toReplay, r.listed := objs, true;
      r.due := r.due + store;
    }

    /** One turn of the loop over the listed objects. */
    method ReplayNext(r: Registration)
      requires Valid() && r in Registrations() && r.toReplay != []
      modifies r
      ensures Valid() && r.due == old(r.due)
      ensures r.log == old(r.log) + [Added(old(r.toReplay)[0])] && r.toReplay == old(r.toReplay)[1..]
      ensures r.Now() == old(r.Now()).Replays() && r.delivered == old(r.delivered) + {old(r.toReplay)[0]}
    {
      ReplayKeepsRight(r.Now(), queue, store);
      assert r.toReplay == [r.toReplay[0]] + r.toReplay[1..];
      r.log, r.delivered := r.log + [Added(r.toReplay[0])], r.delivered + {r.toReplay[0]};
      r.toReplay := r.toReplay[1..];
    }

    /** The context of a registration is done: its own entry goes, and no other. */
    method Leave(name: string, index: nat)
      requires Valid()
      modifies this`handlers
      ensures Valid() && handlers == old(handlers) - {HandlerKey(name, index)}
      ensures forall k | k in old(handlers) && old(handlers[k]).index != index :: k in handlers
    {
      forall k | k in handlers && handlers[k].index != index
        ensures k != HandlerKey(name, index)
      {
        if k == HandlerKey(name, index) {
          KeysNeverCollide(handlers[k].name, handlers[k].index, name, index);
        }
      }
      handlers := handlers - {HandlerKey(name, index)};
    }

    /** Late handlers miss nothing: once the listing is replayed and the queue has drained, every object that was in
        the store at listing time or came later has been delivered. */
    lemma NothingIsMissed(r: Registration, item: Item)
      requires Valid() && r in Registrations() && item in r.due
      ensures r.toReplay == [] && queue == [] ==> item in r.delivered
      ensures item in r.delivered || item in r.toReplay || Queued(item)
    {
    }

    /** In the end a handler takes an object to exist exactly if it is in the store, or if its deletion was heard
        before it was replayed. */
    lemma RightButForOvertaken(r: Registration, item: Item)
      requires Valid() && r in Registrations() && r.listed && r.toReplay == [] && queue == []
      ensures Believed(r.log, item) <==> item in store || item in r.overtaken
      ensures item in r.overtaken ==> item !in store
    {
      assert r.Now().RightAbout(store, item);
    }

    /** The handler has been told of all it is due and, once listed, is right about what exists, but for the
        overtaken. */
    ghost predicate Served(r: Registration)
      reads this, r
    {
      && r.due <= r.delivered
      && (r.listed ==> forall item :: Believed(r.log, item) <==> item in store || item in r.overtaken)
    }

    lemma DrainedIsServed(r: Registration)
      requires Valid() && r in Registrations() && r.toReplay == [] && queue == []
      ensures Served(r)
    {
      forall item | item in r.due
        ensures item in r.delivered
      {
        NothingIsMissed(r, item);
      }
      if r.listed {
        forall item
          ensures Believed(r.log, item) <==> item in store || item in r.overtaken
        {
          RightButForOvertaken(r, item);
        }
      }
    }
  }

  /** A step in the life of the informer and its handlers; a handler is named by its key. */
  datatype Step =
    | Add(item: Item)
    | Change(e: Event)
    | DispatchOldest
    | Join(name: string)
    | List(key: string)
    | Replay(key: string)
    | Quit(name: string, index: nat)

  /** In every interleaving of store changes, dispatches, registrations, listings, replays and departures, whatever a
      registered handler is due is delivered, about to be replayed, or still queued; and when all is delivered it is
      right about what exists, but for what was overtaken. */
  method Run(inf: SharedInformer, steps: seq<Step>)
    requires inf.Valid()
    modifies inf, inf.Registrations()
    ensures inf.Valid()
    ensures forall r | r in inf.Registrations() && r.toReplay == [] && inf.queue == [] :: inf.Served(r)
  {
    var i := 0;
    while i < |steps|
      invariant 0 <= i <= |steps|
      invariant inf.Valid() && fresh(inf.Registrations() - old(inf.Registrations()))
    {
      match steps[i] {
        case Add(item) => inf.ItemAdded(item);
        case Change(e) => if !e.Added? && e.item in inf.store { inf.ItemChanged(e); }
        case DispatchOldest => if inf.queue != [] { inf.Dispatch(); }
        case Join(name) => var r := inf.Register(name);
        case List(key) =>
          var objs := inf.Listing();
          if key in inf.handlers && !inf.handlers[key].listed {
            inf.ListStore(inf.handlers[key], objs);
          }
        case Replay(key) =>
          if key in inf.handlers && inf.handlers[key].toReplay != [] {
            inf.ReplayNext(inf.handlers[key]);
          }
        case Quit(name, index) => inf.Leave(name, index);
      }
      i := i + 1;
    }
    forall r | r in inf.Registrations() && r.toReplay == [] && inf.queue == []
      ensures inf.Served(r)
    {
      inf.DrainedIsServed(r);
    }
  }

  method JoinWithOneItem(item: Item) returns (inf: SharedInformer, r: Registration)
    ensures inf.Valid() && fresh(inf) && fresh(r) && inf.Registrations() == {r}
    ensures inf.store == {item} && inf.queue == [] && r.Now() == Hearing(true, [item], [], {})
  {
    inf := new SharedInformer();
    inf.ItemAdded(item);
    inf.Dispatch();
    r := inf.Register("h");
    assert inf.handlers == map[HandlerKey("h", 0) := r];
    inf.ListStore(r, [item]);
  }

  /** Missing nothing is not being right: a handler that joins while an object is deleted may hear of the deletion
      first and of the listed object afterwards, and takes it to exist for good. */
  method StaleReplay(item: Item) returns (inf: SharedInformer, r: Registration)
    ensures inf.Valid() && r in inf.Registrations() && inf.queue == [] && r.listed && r.toReplay == []
    ensures item !in inf.store && r.log == [Deleted(item), Added(item)] && Believed(r.log, item)
  {
    inf, r := JoinWithOneItem(item);
    inf.ItemChanged(Deleted(item));
    inf.Dispatch();
    inf.ReplayNext(r);
  }
}
