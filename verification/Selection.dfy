/**
 One backend selection as a value: policy, then sticky, then the rotation, for the first
 attempt of a connection; the rotation alone for every later attempt.
 */
module Selection {
  import opened Options
  import opened Policy
  import opened Rotation

  datatype Entry = Entry(name: string, expires: int)

  datatype Sticky = Sticky(enabled: bool, ttl: int, entries: map<string, Entry>)

  datatype State = State(wans: seq<Wan>, rotor: Rotor, rules: seq<Rule>, sticky: Sticky)

  /** The list is well formed and the cursor stands where a run of picks can leave it. */
  predicate Sound(st: State) {
    Standing(st.wans, st.rotor) && forall i :: 0 <= i < |st.wans| ==> st.wans[i].ratio >= 1
  }

  /** The first UP backend with this name, at or after position `lo`. */
  function FindUp(ws: seq<Wan>, name: string, lo: nat): (r: Option<nat>)
    requires lo <= |ws|
    ensures r.Some? ==> lo <= r.value < |ws| && ws[r.value].name == name && ws[r.value].up
    ensures r.Some? ==> forall j :: lo <= j < r.value ==> !(ws[j].name == name && ws[j].up)
    ensures r == None ==> forall j :: lo <= j < |ws| ==> !(ws[j].name == name && ws[j].up)
    decreases |ws| - lo
  {
    if lo == |ws| then None
    else if ws[lo].name == name && ws[lo].up then Some(lo)
    else FindUp(ws, name, lo + 1)
  }

  function PolicyChoice(ws: seq<Wan>, rules: seq<Rule>, q: Request): Option<nat> {
    var wan := PolicyWan(rules, q);
    if wan == "" then None else FindUp(ws, wan, 0)
  }

  /** The pinned name of a client whose entry has not expired. */
  function Pinned(s: Sticky, client: string, now: int): Option<string> {
    if client != "" && s.enabled && client in s.entries && now <= s.entries[client].expires
    then Some(s.entries[client].name) else None
  }

  function StickyChoice(s: Sticky, ws: seq<Wan>, client: string, now: int): Option<nat> {
    match Pinned(s, client, now)
    case None => None
    case Some(name) => FindUp(ws, name, 0)
  }

  /** A lookup drops an expired entry and renews one whose backend is UP. */
  function AfterLookup(s: Sticky, ws: seq<Wan>, client: string, now: int): Sticky {
    if client == "" || !s.enabled || client !in s.entries then s
    else if now > s.entries[client].expires then s.(entries := s.entries - {client})
    else if StickyChoice(s, ws, client, now) == None then s
    else s.(entries := s.entries[client := Entry(s.entries[client].name, now + s.ttl)])
  }

  function Remember(s: Sticky, ws: seq<Wan>, client: string, i: nat, now: int): Sticky {
    if client == "" || !s.enabled || i >= |ws| || ws[i].name == "" then s
    else s.(entries := s.entries[client := Entry(ws[i].name, now + s.ttl)])
  }

  datatype Via = ByPolicy | BySticky | ByRotation

  datatype Outcome = Outcome(choice: Option<nat>, via: Via, st: State)

  function Rotate(st: State, tried: set<nat>): (o: Outcome)
    requires Sound(st)
    ensures Sound(o.st) && o.st.wans == st.wans && o.st.rules == st.rules && o.st.sticky == st.sticky
    ensures o.choice.Some? ==> o.choice.value < |st.wans|
  {
    SpinStanding(st.wans, tried, st.rotor);
    SpinEligible(st.wans, tried, st.rotor);
    var t := Spin(Weights(st.wans, tried), st.rotor);
    Outcome(t.pick, ByRotation, st.(rotor := t.rotor))
  }

  /** The rotation serves a first attempt, and the client is pinned to its choice. */
  function RotateAndRemember(st: State, q: Request): (o: Outcome)
    requires Sound(st)
    ensures Sound(o.st) && o.st.wans == st.wans && o.st.rules == st.rules
    ensures o.st.sticky.enabled == st.sticky.enabled && o.st.sticky.ttl == st.sticky.ttl
  {
    var o := Rotate(st, {});
    if o.choice == None then o
    else o.(st := o.st.(sticky := Remember(o.st.sticky, st.wans, q.client, o.choice.value, q.now)))
  }

  /** pick_backend. */
  function Pick(st: State, q: Request, tried: set<nat>): (o: Outcome)
    requires Sound(st)
    ensures Sound(o.st) && o.st.wans == st.wans && o.st.rules == st.rules
    ensures o.st.sticky.enabled == st.sticky.enabled && o.st.sticky.ttl == st.sticky.ttl
  {
    if tried != {} then Rotate(st, tried)
    else if PolicyChoice(st.wans, st.rules, q).Some? then
      Outcome(PolicyChoice(st.wans, st.rules, q), ByPolicy, st)
    else
      var pin := StickyChoice(st.sticky, st.wans, q.client, q.now);
      var st1 := st.(sticky := AfterLookup(st.sticky, st.wans, q.client, q.now));
      if pin.Some? then Outcome(pin, BySticky, st1) else RotateAndRemember(st1, q)
  }

  /** The entry of a client, expired or not. */
  function Held(s: Sticky, client: string): Option<Entry> {
    if client in s.entries then Some(s.entries[client]) else None
  }

  /**
   What a pick leaves of every client's entry. Only a named client's own first attempt, with
   sticky on and no policy rule claiming it, touches one: an honoured entry is renewed, a pick
   by the rotation is remembered, and if nobody is picked an expired entry goes.
   */
  lemma {:induction false} PickEntries(st: State, q: Request, tried: set<nat>, client: string)
    requires Sound(st)
    ensures var o, before := Pick(st, q, tried), Held(st.sticky, client);
      Held(o.st.sticky, client) ==
        if client != q.client || client == "" || tried != {} || !st.sticky.enabled || o.via == ByPolicy then before
        else if o.via == BySticky then
          if before == None then None else Some(Entry(before.value.name, q.now + st.sticky.ttl))
        else if o.choice.Some? && o.choice.value < |st.wans| && st.wans[o.choice.value].name != "" then
          Some(Entry(st.wans[o.choice.value].name, q.now + st.sticky.ttl))
        else if before.Some? && q.now <= before.value.expires then before
        else None
  {
    hide Spin, Weights, FindUp, PolicyChoice;
    PickUsable(st, q, tried);
  }

  /** Some UP backend of the list carries this name. */
  predicate UpListed(ws: seq<Wan>, name: string) {
    exists i :: 0 <= i < |ws| && ws[i].name == name && ws[i].up
  }

  lemma FindUpFinds(ws: seq<Wan>, name: string)
    ensures FindUp(ws, name, 0).Some? <==> UpListed(ws, name)
    ensures FindUp(ws, name, 0).Some? ==>
      FindUp(ws, name, 0).value < |ws| && ws[FindUp(ws, name, 0).value].name == name
  {
  }

  /**
   Who decides: on a first attempt the backend named by the first matching policy rule, if it
   is UP; else the one of the client's entry, if sticky is on, the deadline has not passed and
   it is UP; else, and on every later attempt, the rotation.
   */
  lemma {:induction false} RoutingOrder(st: State, q: Request, tried: set<nat>)
    requires Sound(st)
    ensures var o, wan, held := Pick(st, q, tried), PolicyWan(st.rules, q), Held(st.sticky, q.client);
      var policy := tried == {} && wan != "" && UpListed(st.wans, wan);
      var sticky := tried == {} && !policy && q.client != "" && st.sticky.enabled &&
                    held.Some? && q.now <= held.value.expires && UpListed(st.wans, held.value.name);
      && (o.via == ByPolicy <==> policy)
      && (o.via == BySticky <==> sticky)
      && (policy ==> o.choice.Some? && o.choice.value < |st.wans| && st.wans[o.choice.value].name == wan)
      && (sticky ==> o.choice.Some? && o.choice.value < |st.wans| && st.wans[o.choice.value].name == held.value.name)
  {
    hide Spin, Weights, AfterLookup, Remember, FindUp, PolicyWan, UpListed;
    FindUpFinds(st.wans, PolicyWan(st.rules, q));
    var pin := Pinned(st.sticky, q.client, q.now);
    if pin.Some? { FindUpFinds(st.wans, pin.value); }
  }

  /**
   Whoever is chosen is usable: a pinned backend is UP, and one served by the rotation is
   eligible and not tried before; nobody is chosen only when nobody is eligible.
   */
  lemma {:induction false} PickUsable(st: State, q: Request, tried: set<nat>)
    requires Sound(st)
    ensures var o := Pick(st, q, tried);
      match o.choice
      case None => o.via == ByRotation && forall i :: 0 <= i < |st.wans| ==> !Eligible(st.wans, tried, i)
      case Some(i) =>
        && i < |st.wans|
        && (o.via == ByRotation ==> Eligible(st.wans, tried, i))
        && (o.via != ByRotation ==> tried == {} && st.wans[i].up && o.st.rotor == st.rotor)
  {
    SpinEligible(st.wans, tried, st.rotor);
  }
}
