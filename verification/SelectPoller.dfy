/** The select-based poller of net/selectPoller.cpp: a vector of poll entries in which every channel knows
    its own position, and removal that fills the gap with the last entry. */
module SelectPoller {
  import opened Outcomes
  import opened Sizes

  /** `events_` of a channel: only its read and write bits are ever set. */
  datatype Interest = Interest(reading: bool, writing: bool) {
    predicate IsNone() { !reading && !writing }
  }

  datatype Revents = Revents(input: bool, output: bool, error: bool)

  datatype Channel = Channel(fd: int, events: Interest, index: int, revents: Revents)

  /** An entry is ignored when its descriptor is stored as `-fd - 1`. */
  datatype PollFd = PollFd(fd: int, events: Interest)

  function Negated(fd: int): int { -fd - 1 }

  function Decode(fd: int): int { if fd < 0 then Negated(fd) else fd }

  /** `objects` are the live channels; the poller's own fields are the next two; `first` are the channels whose
      only update so far was the one that entered them. */
  datatype Poller = Poller(objects: map<nat, Channel>, pollfds: seq<PollFd>, channels: map<int, nat>, first: set<nat>)

  const EmptyPoller := Poller(map[], [], map[], {})

  // ---------------------------------------------------------------------------------------------
  // The methods; a failed assert is a fault

  function Load(s: Poller, c: nat): Outcome<Channel> { if c in s.objects then Ok(s.objects[c]) else Fault }

  /** The asserts `updateChannel` and `removeChannel` share. */
  predicate Listed(s: Poller, c: nat, ch: Channel) {
    ch.fd in s.channels && s.channels[ch.fd] == c && 0 <= ch.index < |s.pollfds|
  }

  function UpdateChannel(s: Poller, c: nat): Outcome<Poller> {
    var ch :- Load(s, c);
    if ch.index < 0 then
      if ch.fd in s.channels then Fault
      else Ok(Poller(s.objects[c := ch.(index := |s.pollfds|)],
                     s.pollfds + [PollFd(ch.fd, ch.events)], s.channels[ch.fd := c], s.first + {c}))
    else if !Listed(s, c, ch) then Fault
    else
      var stored := s.pollfds[ch.index].fd;
      if stored != ch.fd && stored != Negated(ch.fd) then Fault
      else
        var fd := if ch.events.IsNone() then Negated(ch.fd) else ch.fd;
        Ok(s.(pollfds := s.pollfds[ch.index := PollFd(fd, ch.events)], first := s.first - {c}))
  }

  function RemoveChannel(s: Poller, c: nat): Outcome<Poller> {
    var ch :- Load(s, c);
    if !Listed(s, c, ch) || !ch.events.IsNone() || s.pollfds[ch.index] != PollFd(Negated(ch.fd), ch.events) then Fault
    else
      var n, rest := |s.pollfds| - 1, s.channels - {ch.fd};
      if ch.index == n then Ok(s.(pollfds := s.pollfds[..n], channels := rest))
      else
        var atEnd := Decode(s.pollfds[n].fd);
        if atEnd !in rest then Fault
        else
          var last :- Load(s, rest[atEnd]);
          Ok(Poller(s.objects[rest[atEnd] := last.(index := ch.index)],
                    s.pollfds[..n][ch.index := s.pollfds[n]], rest, s.first))
  }

  /** The descriptor sets that go into `select` and, cut down to the ready ones, come back. */
  datatype Sets = Sets(read: set<int>, write: set<int>, except: set<int>)

  ghost function Asked(pollfds: seq<PollFd>): Sets {
    Sets(set p | p in pollfds && p.events.reading :: p.fd,
         set p | p in pollfds && p.events.writing :: p.fd,
         set p | p in pollfds :: p.fd)
  }

  function ReventsOf(p: PollFd, r: Sets): Revents { Revents(p.fd in r.read, p.fd in r.write, p.fd in r.except) }

  predicate IsReady(p: PollFd, r: Sets) { p.fd in r.read || p.fd in r.write || p.fd in r.except }

  /** `fillActiveChannels` over the first `k` entries, with `n` events to hand out. */
  function Fill(s: Poller, k: nat, n: nat, r: Sets): Outcome<(map<nat, Channel>, seq<nat>)>
    requires k <= |s.pollfds|
  {
    if k == 0 then Ok((s.objects, []))
    else
      var (objects, active) :- Fill(s, k - 1, n, r);
      var p := s.pollfds[k - 1];
      if |active| >= n || !IsReady(p, r) then Ok((objects, active))
      else if p.fd !in s.channels || s.channels[p.fd] !in objects then Fault
      else
        var c := s.channels[p.fd];
        if objects[c].fd != p.fd then Fault
        else Ok((objects[c := objects[c].(revents := ReventsOf(p, r))], active + [c]))
  }

  // ---------------------------------------------------------------------------------------------
  // Runs

  datatype Action =
    | Create(c: nat, fd: int)
    | Destroy(c: nat)
    | SetInterest(c: nat, events: Interest)
    | Remove(c: nat)
    | PollOnce(n: nat, r: Sets)

  predicate Owns(s: Poller, c: nat) {
    c in s.objects && s.objects[c].fd in s.channels && s.channels[s.objects[c].fd] == c
  }

  /** A channel no poller has seen, on a descriptor that is not in use. */
  predicate Unseen(s: Poller, c: nat) {
    c in s.objects && s.objects[c].index == -1 && s.objects[c].fd !in s.channels
  }

  /** Any live channel may be updated or removed at any time; only one the poller does not know is destroyed. */
  ghost predicate Possible(s: Poller, x: Action) {
    match x
    case Create(c, fd) => c !in s.objects && fd >= 0
    case Destroy(c) => c in s.objects && !Owns(s, c)
    case SetInterest(c, _) => c in s.objects
    case Remove(c) => c in s.objects
    case PollOnce(_, r) => Answers(s.pollfds, r)
  }

  /** What a caller can tell before a call. */
  predicate Safe(s: Poller, x: Action) {
    match x
    case SetInterest(c, _) => Owns(s, c) || Unseen(s, c)
    case Remove(c) => Owns(s, c) && s.objects[c].events.IsNone() && c !in s.first
    case _ => true
  }

  /** `select` hands back some of the descriptors it was asked about, and only real ones. */
  ghost predicate Answers(pollfds: seq<PollFd>, r: Sets) {
    var a := Asked(pollfds);
    r.read <= a.read && r.write <= a.write && r.except <= a.except
    && forall fd :: fd in r.read || fd in r.write || fd in r.except ==> fd >= 0
  }

  function Step(s: Poller, x: Action): Outcome<(Poller, seq<nat>)> {
    match x
    case Create(c, fd) =>
      Ok((s.(objects := s.objects[c := Channel(fd, Interest(false, false), -1, Revents(false, false, false))]), []))
    case Destroy(c) => Ok((s.(objects := s.objects - {c}), []))
    case SetInterest(c, events) =>
      var ch :- Load(s, c);
      var t :- UpdateChannel(s.(objects := s.objects[c := ch.(events := events)]), c);
      Ok((t, []))
    case Remove(c) =>
      var t :- RemoveChannel(s, c);
      Ok((t, []))
    case PollOnce(n, r) =>
      var (objects, active) :- Fill(s, |s.pollfds|, n, r);
      Ok((s.(objects := objects), active))
  }

  // ---------------------------------------------------------------------------------------------

  /** From a descriptor to its channel to its entry and back. */
  ghost predicate Forward(s: Poller) {
    forall fd :: fd in s.channels ==>
      var c := s.channels[fd];
      && fd >= 0 && c in s.objects && s.objects[c].fd == fd && 0 <= s.objects[c].index < |s.pollfds|
      && Decode(s.pollfds[s.objects[c].index].fd) == fd
      && s.pollfds[s.objects[c].index].events == s.objects[c].events
  }

  predicate EntryAt(s: Poller, i: nat)
    requires i < |s.pollfds|
  {
    var fd := Decode(s.pollfds[i].fd);
    fd in s.channels && s.channels[fd] in s.objects && s.objects[s.channels[fd]].index == i
  }

  /** ... and from an entry to its channel. */
  ghost predicate Backward(s: Poller) {
    forall i :: 0 <= i < |s.pollfds| ==> EntryAt(s, i)
  }

  /** An entry is ignored exactly when nobody is interested, except after a first update. */
  ghost predicate NegatedExactly(s: Poller)
    requires Backward(s)
  {
    forall i :: 0 <= i < |s.pollfds| ==>
      EntryAt(s, i) && (s.pollfds[i].fd < 0
        <==> s.pollfds[i].events.IsNone() && s.channels[Decode(s.pollfds[i].fd)] !in s.first)
  }

  ghost predicate Inv(s: Poller) {
    && Forward(s) && Backward(s) && NegatedExactly(s)
    && (forall c :: c in s.first ==> Owns(s, c))
    && forall c :: c in s.objects ==> s.objects[c].fd >= 0 && s.objects[c].index >= -1
  }

  /** The table the entries stand for. */
  ghost function Interests(s: Poller): map<int, Interest>
    requires Forward(s)
  {
    map fd | fd in s.channels :: s.pollfds[s.objects[s.channels[fd]].index].events
  }

  lemma DecodeNegated(fd: int)
    ensures Decode(Negated(fd)) == (if fd >= 0 then fd else -fd - 1) && Negated(Negated(fd)) == fd
  {}

  lemma AppendKeeps(s: Poller, c: nat, events: Interest)
    requires Inv(s) && Unseen(s, c)
    ensures Step(s, SetInterest(c, events)).Ok?
    ensures Inv(Step(s, SetInterest(c, events)).value.0)
  {
    var t := Step(s, SetInterest(c, events)).value.0;
    forall i | 0 <= i < |t.pollfds| ensures EntryAt(t, i) {
      if i < |s.pollfds| { assert EntryAt(s, i); }
    }
  }

  lemma RetouchKeeps(s: Poller, c: nat, events: Interest)
    requires Inv(s) && Owns(s, c)
    ensures Step(s, SetInterest(c, events)).Ok?
    ensures Inv(Step(s, SetInterest(c, events)).value.0)
  {
    var t := Step(s, SetInterest(c, events)).value.0;
    forall i | 0 <= i < |t.pollfds| ensures EntryAt(t, i) {
      assert EntryAt(s, i);
    }
    forall fd | fd in s.channels && s.channels[fd] != c
      ensures s.objects[s.channels[fd]].index != s.objects[c].index
    {
      assert s.objects[s.channels[fd]].fd == fd;
    }
  }

  /** Nobody else's index is the removed one. */
  lemma OtherIndices(s: Poller, c: nat)
    requires Inv(s) && Owns(s, c)
    ensures forall fd :: fd in s.channels && fd != s.objects[c].fd ==>
      s.objects[s.channels[fd]].index != s.objects[c].index
  {
    forall fd | fd in s.channels && fd != s.objects[c].fd
      ensures s.objects[s.channels[fd]].index != s.objects[c].index
    {
      assert s.objects[s.channels[fd]].fd == fd;
    }
  }

  lemma PopKeeps(s: Poller, c: nat)
    requires Inv(s) && Owns(s, c) && s.objects[c].events.IsNone() && c !in s.first
    requires s.objects[c].index == |s.pollfds| - 1
    ensures RemoveChannel(s, c).Ok? && Inv(RemoveChannel(s, c).value)
  {
    assert EntryAt(s, s.objects[c].index);
    OtherIndices(s, c);
    var t := RemoveChannel(s, c).value;
    forall i | 0 <= i < |t.pollfds| ensures EntryAt(t, i) {
      assert EntryAt(s, i);
    }
  }

  /** `t` is `s` without `c`, whose entry the last one, of channel `m`, has taken. */
  ghost predicate Swapped(s: Poller, c: nat, m: nat, t: Poller) {
    && Owns(s, c) && m in s.objects && m != c && s.objects[m].index == |s.pollfds| - 1
    && 0 <= s.objects[c].index < |s.pollfds| - 1
    && t.objects == s.objects[m := s.objects[m].(index := s.objects[c].index)]
    && t.pollfds == s.pollfds[..|s.pollfds| - 1][s.objects[c].index := s.pollfds[|s.pollfds| - 1]]
    && t.channels == s.channels - {s.objects[c].fd} && t.first == s.first
    && Decode(s.pollfds[|s.pollfds| - 1].fd) in s.channels && s.channels[Decode(s.pollfds[|s.pollfds| - 1].fd)] == m
  }

  lemma SwapShape(s: Poller, c: nat) returns (m: nat)
    requires Inv(s) && Owns(s, c) && s.objects[c].events.IsNone() && c !in s.first
    requires s.objects[c].index != |s.pollfds| - 1
    ensures RemoveChannel(s, c).Ok? && Swapped(s, c, m, RemoveChannel(s, c).value)
  {
    assert EntryAt(s, s.objects[c].index) && EntryAt(s, |s.pollfds| - 1);
    m := s.channels[Decode(s.pollfds[|s.pollfds| - 1].fd)];
  }

  lemma SwapForward(s: Poller, c: nat, m: nat, t: Poller)
    requires Inv(s) && Swapped(s, c, m, t)
    ensures Forward(t)
  {
    OtherIndices(s, c);
    hide Backward, NegatedExactly;
    forall fd | fd in t.channels && t.channels[fd] != m ensures s.objects[t.channels[fd]].index < |t.pollfds| {
      assert EntryAt(s, s.objects[s.channels[fd]].index) by { EntryOf(s, s.objects[s.channels[fd]].index); }
    }
  }

  lemma EntryOf(s: Poller, i: int)
    requires Inv(s) && 0 <= i < |s.pollfds|
    ensures EntryAt(s, i)
  {}

  lemma SwapBackward(s: Poller, c: nat, m: nat, t: Poller)
    requires Inv(s) && Swapped(s, c, m, t)
    ensures Backward(t)
  {
    hide Backward, NegatedExactly;
    forall i | 0 <= i < |t.pollfds| ensures EntryAt(t, i) {
      EntryOf(s, if i == s.objects[c].index then |s.pollfds| - 1 else i);
      EntryOf(s, s.objects[c].index);
    }
    BackwardFrom(t);
  }

  lemma BackwardFrom(t: Poller)
    requires forall i :: 0 <= i < |t.pollfds| ==> EntryAt(t, i)
    ensures Backward(t)
  {}

  lemma SwapNegated(s: Poller, c: nat, m: nat, t: Poller)
    requires Inv(s) && Swapped(s, c, m, t) && Backward(t)
    ensures NegatedExactly(t)
  {
    forall i | 0 <= i < |t.pollfds| ensures EntryAt(t, i) {}
  }

  lemma SwapKeeps(s: Poller, c: nat)
    requires Inv(s) && Owns(s, c) && s.objects[c].events.IsNone() && c !in s.first
    requires s.objects[c].index != |s.pollfds| - 1
    ensures RemoveChannel(s, c).Ok? && Inv(RemoveChannel(s, c).value)
  {
    hide RemoveChannel;
    var m := SwapShape(s, c);
    var t := RemoveChannel(s, c).value;
    SwapForward(s, c, m, t);
    SwapBackward(s, c, m, t);
    SwapNegated(s, c, m, t);
    hide Forward, Backward, NegatedExactly;
    OwnersStay(s, c, m, t);
  }

  lemma OwnersStay(s: Poller, c: nat, m: nat, t: Poller)
    requires Inv(s) && Swapped(s, c, m, t) && c !in s.first
    ensures forall d :: d in t.first ==> Owns(t, d)
    ensures forall d :: d in t.objects ==> t.objects[d].fd >= 0 && t.objects[d].index >= -1
  {
    hide Forward, Backward, NegatedExactly;
  }

  /** Popping the last entry, and moving it into the gap first when the gap is elsewhere. */
  lemma RemoveKeeps(s: Poller, c: nat)
    requires Inv(s) && Owns(s, c) && s.objects[c].events.IsNone() && c !in s.first
    ensures RemoveChannel(s, c).Ok?
    ensures Inv(RemoveChannel(s, c).value)
  {
    if s.objects[c].index == |s.pollfds| - 1 { PopKeeps(s, c); } else { SwapKeeps(s, c); }
  }

  lemma SetShape(s: Poller, c: nat, events: Interest, t: Poller)
    requires Inv(s) && c in s.objects && Step(s, SetInterest(c, events)) == Ok((t, []))
    ensures t.channels == s.channels[s.objects[c].fd := c]
    ensures t.objects.Keys == s.objects.Keys && t.objects[c].events == events && t.objects[c].fd == s.objects[c].fd
    ensures forall d :: d in s.objects && d != c ==> t.objects[d] == s.objects[d]
  {}

  lemma InterestsAre(s: Poller, fd: int)
    requires Forward(s) && fd in s.channels
    ensures s.channels[fd] in s.objects && s.objects[s.channels[fd]].fd == fd
    ensures Interests(s)[fd] == s.objects[s.channels[fd]].events
  {}

  lemma TableUpdated(s: Poller, t: Poller, c: nat, own: int, events: Interest)
    requires Forward(s) && Forward(t) && t.channels == s.channels[own := c] && c in t.objects
    requires t.objects[c].events == events && t.objects[c].fd == own
    requires forall d :: d in s.objects && d != c ==> d in t.objects && t.objects[d] == s.objects[d]
    ensures Interests(t) == Interests(s)[own := events]
  {
    forall fd | fd in t.channels
      ensures Interests(t)[fd] == if fd == own then events else Interests(s)[fd]
    {
      InterestsAre(t, fd);
      if fd != own { InterestsAre(s, fd); }
    }
  }

  /** An update changes the interest of its own descriptor and of no other. */
  lemma SetInterestMeans(s: Poller, c: nat, events: Interest, t: Poller)
    requires Inv(s) && c in s.objects && Step(s, SetInterest(c, events)) == Ok((t, []))
    ensures Inv(t) && Interests(t) == Interests(s)[s.objects[c].fd := events]
  {
    StepOkExactly(s, SetInterest(c, events));
    SetShape(s, c, events, t);
    hide Step, Possible;
    TableUpdated(s, t, c, s.objects[c].fd, events);
  }

  /** A removal takes its own descriptor out and leaves every other interest as it was. */
  lemma RemoveMeans(s: Poller, c: nat, t: Poller)
    requires Inv(s) && c in s.objects && RemoveChannel(s, c) == Ok(t)
    ensures Inv(t) && Interests(t) == Interests(s) - {s.objects[c].fd}
  {
    StepOkExactly(s, Remove(c));
    forall fd | fd in t.channels ensures Interests(t)[fd] == Interests(s)[fd] {
      assert Interests(t)[fd] == t.objects[t.channels[fd]].events;
    }
  }

  lemma CreateKeeps(s: Poller, c: nat, fd: int)
    requires Inv(s) && c !in s.objects && fd >= 0
    ensures Inv(Step(s, Create(c, fd)).value.0)
  {
    var t := Step(s, Create(c, fd)).value.0;
    forall i | 0 <= i < |t.pollfds| ensures EntryAt(t, i) { assert EntryAt(s, i); }
  }

  lemma DestroyKeeps(s: Poller, c: nat)
    requires Inv(s) && c in s.objects && !Owns(s, c)
    ensures Inv(Step(s, Destroy(c)).value.0)
  {
    var t := Step(s, Destroy(c)).value.0;
    forall i | 0 <= i < |t.pollfds| ensures EntryAt(t, i) {
      assert EntryAt(s, i);
      assert Owns(s, s.channels[Decode(s.pollfds[i].fd)]);
    }
  }

  // ---------------------------------------------------------------------------------------------
  // Delivery

  function CountReady(pollfds: seq<PollFd>, r: Sets): nat {
    if pollfds == [] then 0
    else CountReady(pollfds[..|pollfds| - 1], r) + if IsReady(pollfds[|pollfds| - 1], r) then 1 else 0
  }

  ghost predicate SameButRevents(objects: map<nat, Channel>, after: map<nat, Channel>) {
    && after.Keys == objects.Keys
    && forall c :: c in objects ==> after[c] == objects[c].(revents := after[c].revents)
  }

  /** The bits say in which of the sets the descriptor came back. */
  predicate Tells(revents: Revents, fd: int, r: Sets) {
    && (revents.input <==> fd in r.read) && (revents.output <==> fd in r.write) && (revents.error <==> fd in r.except)
    && (revents.input || revents.output || revents.error)
  }

  /** Channels handed out have the right bits; no other channel has changed. */
  ghost predicate Truthful(objects: map<nat, Channel>, r: Sets, after: map<nat, Channel>, active: seq<nat>) {
    && (forall c :: c in active ==> c in after && Tells(after[c].revents, after[c].fd, r))
    && (forall c :: c in objects && c !in active ==> c in after && after[c] == objects[c])
  }

  /** `p`'s channel was handed out, with the right bits. */
  predicate Delivered(s: Poller, after: map<nat, Channel>, active: seq<nat>, p: PollFd, r: Sets) {
    p.fd in s.channels && s.channels[p.fd] in active && s.channels[p.fd] in after
    && Tells(after[s.channels[p.fd]].revents, p.fd, r)
  }

  /** While `n` lasts, every ready entry among the first `k` is delivered, and nothing else. */
  ghost predicate Fills(s: Poller, k: nat, n: nat, r: Sets, after: map<nat, Channel>, active: seq<nat>)
    requires k <= |s.pollfds|
  {
    && SameButRevents(s.objects, after) && Truthful(s.objects, r, after, active)
    && |active| == (if CountReady(s.pollfds[..k], r) <= n then CountReady(s.pollfds[..k], r) else n)
    && (forall c :: c in active ==> Owns(s, c) && s.objects[c].index < k)
    && (forall i, j :: 0 <= i < j < |active| ==> active[i] != active[j])
    && (CountReady(s.pollfds[..k], r) <= n ==>
          forall i :: 0 <= i < k && IsReady(s.pollfds[i], r) ==> Delivered(s, after, active, s.pollfds[i], r))
  }

  /** A ready entry is not a negated one, so its channel is found under its descriptor. */
  lemma ReadyIsOwned(s: Poller, k: nat, r: Sets)
    requires Inv(s) && Answers(s.pollfds, r) && k < |s.pollfds| && IsReady(s.pollfds[k], r)
    ensures s.pollfds[k].fd in s.channels
    ensures var c := s.channels[s.pollfds[k].fd];
      Owns(s, c) && s.objects[c].index == k && s.objects[c].fd == s.pollfds[k].fd
  {
    assert EntryAt(s, k);
  }

  lemma ReadyTells(p: PollFd, r: Sets)
    requires IsReady(p, r)
    ensures Tells(ReventsOf(p, r), p.fd, r)
  {}

  lemma TruthfulOne(objects: map<nat, Channel>, r: Sets, mid: map<nat, Channel>, active: seq<nat>, c: nat,
                    revents: Revents, after: map<nat, Channel>)
    requires Truthful(objects, r, mid, active) && c in mid && after == mid[c := mid[c].(revents := revents)]
    requires Tells(revents, mid[c].fd, r)
    ensures Truthful(objects, r, after, active + [c])
  {}

  lemma FillsOne(s: Poller, k: nat, n: nat, r: Sets, mid: map<nat, Channel>, active: seq<nat>, after: map<nat, Channel>)
    requires Inv(s) && Answers(s.pollfds, r) && k < |s.pollfds| && IsReady(s.pollfds[k], r) && |active| < n
    requires Fills(s, k, n, r, mid, active)
    requires s.pollfds[k].fd in s.channels && s.channels[s.pollfds[k].fd] in mid
    requires var c := s.channels[s.pollfds[k].fd]; after == mid[c := mid[c].(revents := ReventsOf(s.pollfds[k], r))]
    ensures Fills(s, k + 1, n, r, after, active + [s.channels[s.pollfds[k].fd]])
  {
    hide Truthful, Tells, ReventsOf, Answers;
    var c := s.channels[s.pollfds[k].fd];
    ReadyIsOwned(s, k, r);
    ReadyTells(s.pollfds[k], r);
    assert s.pollfds[..k + 1][..k] == s.pollfds[..k];
    TruthfulOne(s.objects, r, mid, active, c, ReventsOf(s.pollfds[k], r), after);
    forall i | 0 <= i <= k && IsReady(s.pollfds[i], r)
      ensures Delivered(s, after, active + [c], s.pollfds[i], r)
    {
      ReadyIsOwned(s, i, r);
      if i < k { assert Delivered(s, mid, active, s.pollfds[i], r); }
    }
  }

  lemma FillsSkip(s: Poller, k: nat, n: nat, r: Sets, after: map<nat, Channel>, active: seq<nat>)
    requires k < |s.pollfds| && Fills(s, k, n, r, after, active) && (|active| >= n || !IsReady(s.pollfds[k], r))
    ensures Fills(s, k + 1, n, r, after, active)
  {
    assert s.pollfds[..k + 1][..k] == s.pollfds[..k];
  }

  /** `select` answering about registered descriptors makes every assert of `fillActiveChannels` hold. */
  lemma {:induction false} FillDelivers(s: Poller, k: nat, n: nat, r: Sets)
    requires Inv(s) && Answers(s.pollfds, r) && k <= |s.pollfds|
    ensures Fill(s, k, n, r).Ok?
    ensures var (after, active) := Fill(s, k, n, r).value; Fills(s, k, n, r, after, active)
    decreases k
  {
    hide Fills, Inv, Answers, IsReady;
    if k == 0 {
      FillsNone(s, n, r);
    } else {
      FillDelivers(s, k - 1, n, r);
      var (mid, active) := Fill(s, k - 1, n, r).value;
      FillsMeans(s, k - 1, n, r, mid, active);
      var p := s.pollfds[k - 1];
      if |active| < n && IsReady(p, r) {
        ReadyIsOwned(s, k - 1, r);
        var c := s.channels[p.fd];
        FillsOne(s, k - 1, n, r, mid, active, mid[c := mid[c].(revents := ReventsOf(p, r))]);
      } else {
        FillsSkip(s, k - 1, n, r, mid, active);
      }
    }
  }

  /** A channel is told that it is readable or writable only if that is what it wants to know. */
  lemma OnlyWhatIsWanted(s: Poller, n: nat, r: Sets, c: nat)
    requires Inv(s) && Answers(s.pollfds, r)
    ensures Fill(s, |s.pollfds|, n, r).Ok?
    ensures var (after, active) := Fill(s, |s.pollfds|, n, r).value;
      c in active ==>
        && c in s.objects && c in after && Tells(after[c].revents, s.objects[c].fd, r)
        && (after[c].revents.input ==> s.objects[c].events.reading)
        && (after[c].revents.output ==> s.objects[c].events.writing)
  {
    FillDelivers(s, |s.pollfds|, n, r);
    var (after, active) := Fill(s, |s.pollfds|, n, r).value;
    if c in active {
      var fd := s.objects[c].fd;
      if fd in r.read {
        forall g | g in Asked(s.pollfds).read ensures exists p :: p in s.pollfds && AsksFor(p, g, true, false) {
          var p :| p in s.pollfds && p.events.reading && p.fd == g;
          assert AsksFor(p, g, true, false);
        }
        WantedBy(s, c, Asked(s.pollfds).read, true, false);
      }
      if fd in r.write {
        forall g | g in Asked(s.pollfds).write ensures exists p :: p in s.pollfds && AsksFor(p, g, false, true) {
          var p :| p in s.pollfds && p.events.writing && p.fd == g;
          assert AsksFor(p, g, false, true);
        }
        WantedBy(s, c, Asked(s.pollfds).write, false, true);
      }
    }
  }

  predicate AsksFor(p: PollFd, fd: int, reading: bool, writing: bool) {
    p.fd == fd && (reading ==> p.events.reading) && (writing ==> p.events.writing)
  }

  lemma WantedBy(s: Poller, c: nat, fds: set<int>, reading: bool, writing: bool)
    requires Inv(s) && Owns(s, c) && s.objects[c].fd in fds
    requires forall fd :: fd in fds ==> exists p :: p in s.pollfds && AsksFor(p, fd, reading, writing)
    ensures (reading ==> s.objects[c].events.reading) && (writing ==> s.objects[c].events.writing)
  {
    var p :| p in s.pollfds && AsksFor(p, s.objects[c].fd, reading, writing);
    var i :| 0 <= i < |s.pollfds| && s.pollfds[i] == p;
    assert EntryAt(s, i);
  }

  /** No channel is handed out twice, whatever the count. */
  lemma HandedOutOnce(s: Poller, n: nat, r: Sets)
    requires Inv(s) && Answers(s.pollfds, r)
    ensures Fill(s, |s.pollfds|, n, r).Ok?
    ensures var active := Fill(s, |s.pollfds|, n, r).value.1;
      forall i, j :: 0 <= i < j < |active| ==> active[i] != active[j]
  {
    hide Inv, Answers, SameButRevents, Truthful;
    FillDelivers(s, |s.pollfds|, n, r);
  }

  lemma FillsNone(s: Poller, n: nat, r: Sets)
    ensures Fills(s, 0, n, r, s.objects, [])
  {}

  lemma FillsMeans(s: Poller, k: nat, n: nat, r: Sets, after: map<nat, Channel>, active: seq<nat>)
    requires k <= |s.pollfds| && Fills(s, k, n, r, after, active)
    ensures SameButRevents(s.objects, after)
  {}

  lemma RetouchedInv(s: Poller, after: map<nat, Channel>)
    requires Inv(s) && SameButRevents(s.objects, after)
    ensures Inv(s.(objects := after))
  {
    var t := s.(objects := after);
    forall i | 0 <= i < |t.pollfds| ensures EntryAt(t, i) { assert EntryAt(s, i); }
  }

  lemma UpdateFaults(s: Poller, c: nat)
    requires Inv(s) && c in s.objects
    ensures UpdateChannel(s, c).Ok? <==> Owns(s, c) || Unseen(s, c)
  {
    DecodeNegated(s.objects[c].fd);
  }

  /** Changing the interest field alone does not matter to the asserts. */
  lemma SetFaults(s: Poller, c: nat, events: Interest)
    requires Inv(s) && c in s.objects
    ensures Step(s, SetInterest(c, events)).Ok? <==> Owns(s, c) || Unseen(s, c)
  {
    UpdateFaults(s, c);
  }

  lemma RemoveFaults(s: Poller, c: nat)
    requires Inv(s) && c in s.objects
    ensures RemoveChannel(s, c).Ok? <==> Owns(s, c) && s.objects[c].events.IsNone() && c !in s.first
  {
    if Owns(s, c) {
      assert EntryAt(s, s.objects[c].index);
      if s.objects[c].events.IsNone() && c !in s.first { RemoveKeeps(s, c); }
    }
  }

  /** A step passes its asserts if and only if it meets its guard, and then keeps the invariant. A removed channel
      keeps its index and can be updated no more; one whose only update came without interest cannot be removed. */
  lemma StepOkExactly(s: Poller, x: Action)
    requires Inv(s) && Possible(s, x)
    ensures Step(s, x).Ok? <==> Safe(s, x)
    ensures Step(s, x).Ok? ==> Inv(Step(s, x).value.0)
  {
    match x
    case Create(c, fd) => CreateKeeps(s, c, fd);
    case Destroy(c) => DestroyKeeps(s, c);
    case SetInterest(c, events) =>
      SetFaults(s, c, events);
      if Owns(s, c) { RetouchKeeps(s, c, events); } else if Unseen(s, c) { AppendKeeps(s, c, events); }
    case Remove(c) =>
      RemoveFaults(s, c);
      if Safe(s, x) { RemoveKeeps(s, c); }
    case PollOnce(n, r) =>
      FillDelivers(s, |s.pollfds|, n, r);
      RetouchedInv(s, Fill(s, |s.pollfds|, n, r).value.0);
  }

  function Run(s: Poller, xs: seq<Action>): Outcome<Poller>
    decreases |xs|
  {
    if xs == [] then Ok(s)
    else
      var (t, _) :- Step(s, xs[0]);
      Run(t, xs[1..])
  }

  ghost predicate Legal(s: Poller, xs: seq<Action>)
    decreases |xs|
  {
    xs == [] || (Possible(s, xs[0]) && (Step(s, xs[0]).Ok? ==> Legal(Step(s, xs[0]).value.0, xs[1..])))
  }

  /** After any updates, removals and polls in which no assert fails, channels and entries are in bijection,
      every index leads to the channel's own descriptor, and an entry is ignored exactly when its channel has no
      interest and has been updated since it was entered. */
  lemma {:induction false} IndexStaysRight(s: Poller, xs: seq<Action>)
    requires Inv(s) && Legal(s, xs) && Run(s, xs).Ok?
    ensures Inv(Run(s, xs).value)
    decreases |xs|
  {
    if xs != [] {
      StepOkExactly(s, xs[0]);
      IndexStaysRight(Step(s, xs[0]).value.0, xs[1..]);
    }
  }

  ghost predicate AllSafe(s: Poller, xs: seq<Action>)
    decreases |xs|
  {
    xs == [] || (Safe(s, xs[0]) && (Step(s, xs[0]).Ok? ==> AllSafe(Step(s, xs[0]).value.0, xs[1..])))
  }

  /** No assert fails in a run if and only if each of its steps meets its guard. */
  lemma {:induction false} RunOkExactly(s: Poller, xs: seq<Action>)
    requires Inv(s) && Legal(s, xs)
    ensures Run(s, xs).Ok? <==> AllSafe(s, xs)
    decreases |xs|
  {
    if xs != [] {
      StepOkExactly(s, xs[0]);
      if Step(s, xs[0]).Ok? { RunOkExactly(Step(s, xs[0]).value.0, xs[1..]); }
    }
  }

  // ---------------------------------------------------------------------------------------------
  // Particular cases

  /** A channel entered without interest cannot be removed until it is updated again. */
  lemma FirstUpdateNeedsInterest(s: Poller, c: nat)
    requires Inv(s) && Unseen(s, c) && s.objects[c].events.IsNone()
    ensures UpdateChannel(s, c).Ok?
    ensures var t := UpdateChannel(s, c).value;
      && RemoveChannel(t, c).Fault? && UpdateChannel(t, c).Ok? && RemoveChannel(UpdateChannel(t, c).value, c).Ok?
  {
    var none := s.objects[c].events;
    assert s.(objects := s.objects[c := s.objects[c]]) == s;
    StepOkExactly(s, SetInterest(c, none));
    var t := UpdateChannel(s, c).value;
    RemoveFaults(t, c);
    assert t.(objects := t.objects[c := t.objects[c]]) == t;
    StepOkExactly(t, SetInterest(c, none));
    RemoveFaults(UpdateChannel(t, c).value, c);
  }

  /** A removed channel cannot be updated or removed again, whatever it is set to. */
  lemma RemovedIsSpent(s: Poller, c: nat, t: Poller, events: Interest)
    requires Inv(s) && c in s.objects && RemoveChannel(s, c) == Ok(t)
    ensures Step(t, SetInterest(c, events)).Fault? && RemoveChannel(t, c).Fault?
  {
    StepOkExactly(s, Remove(c));
    SetFaults(t, c, events);
    RemoveFaults(t, c);
  }

  /** The exception set is filled from every entry as stored: it names registered descriptors only, if and only
      if every channel without interest is still in the state of its first update. */
  lemma DisabledEntrySpoilsSelect(s: Poller)
    requires Inv(s)
    ensures Asked(s.pollfds).except <= s.channels.Keys
       <==> forall fd :: fd in s.channels ==> !s.objects[s.channels[fd]].events.IsNone() || s.channels[fd] in s.first
  {
    var asked := Asked(s.pollfds).except;
    if fd :| fd in s.channels && s.objects[s.channels[fd]].events.IsNone() && s.channels[fd] !in s.first {
      var i := s.objects[s.channels[fd]].index;
      var p := s.pollfds[i];
      assert EntryAt(s, i) && p in s.pollfds && p.fd < 0;
      assert p.fd in asked;
    }
    if fd :| fd in asked && fd !in s.channels {
      var i :| 0 <= i < |s.pollfds| && s.pollfds[i].fd == fd;
      assert EntryAt(s, i);
    }
  }

  // ---------------------------------------------------------------------------------------------
  // The count `select` returns

  /** The descriptors of the ready entries among the first `k`. */
  ghost function ReadyFds(pollfds: seq<PollFd>, k: nat, r: Sets): set<int>
    requires k <= |pollfds|
  {
    set i | 0 <= i < k && IsReady(pollfds[i], r) :: pollfds[i].fd
  }

  /** Ready entries have different descriptors. */
  lemma ReadyFdIsNew(s: Poller, k: nat, r: Sets)
    requires Inv(s) && Answers(s.pollfds, r) && k < |s.pollfds| && IsReady(s.pollfds[k], r)
    ensures s.pollfds[k].fd !in ReadyFds(s.pollfds, k, r)
  {
    ReadyIsOwned(s, k, r);
    forall i | 0 <= i < k && IsReady(s.pollfds[i], r) ensures s.pollfds[i].fd != s.pollfds[k].fd {
      ReadyIsOwned(s, i, r);
    }
  }

  lemma ReadyFdsMore(pollfds: seq<PollFd>, k: nat, r: Sets)
    requires k < |pollfds|
    ensures ReadyFds(pollfds, k + 1, r) ==
      ReadyFds(pollfds, k, r) + (if IsReady(pollfds[k], r) then {pollfds[k].fd} else {})
  {}

  lemma {:induction false} ReadyFdsCounted(s: Poller, k: nat, r: Sets)
    requires Inv(s) && Answers(s.pollfds, r) && k <= |s.pollfds|
    ensures |ReadyFds(s.pollfds, k, r)| == CountReady(s.pollfds[..k], r)
    decreases k
  {
    hide Inv, Answers, IsReady;
    if k == 0 {
      assert ReadyFds(s.pollfds, 0, r) == {};
    } else {
      ReadyFdsCounted(s, k - 1, r);
      assert s.pollfds[..k][..k - 1] == s.pollfds[..k - 1];
      ReadyFdsMore(s.pollfds, k - 1, r);
      if IsReady(s.pollfds[k - 1], r) { ReadyFdIsNew(s, k - 1, r); }
    }
  }

  /** `select` counts a descriptor once for every set it is in; there are never fewer than ready entries. */
  lemma CountSuffices(s: Poller, r: Sets)
    requires Inv(s) && Answers(s.pollfds, r)
    ensures CountReady(s.pollfds, r) <= |r.read| + |r.write| + |r.except|
  {
    var n := |s.pollfds|;
    ReadyFdsCounted(s, n, r);
    assert s.pollfds[..n] == s.pollfds;
    SubsetSize(ReadyFds(s.pollfds, n, r), r.read + r.write + r.except);
  }

  /** With the count `select` returns, every ready entry's channel is handed out, with the right bits. */
  lemma AllReadyDelivered(s: Poller, r: Sets)
    requires Inv(s) && Answers(s.pollfds, r)
    ensures var n := |r.read| + |r.write| + |r.except|;
      && Fill(s, |s.pollfds|, n, r).Ok?
      && var (after, active) := Fill(s, |s.pollfds|, n, r).value;
        && |active| == CountReady(s.pollfds, r)
        && forall i :: 0 <= i < |s.pollfds| && s.pollfds[i].fd in r.read + r.write + r.except ==>
             Delivered(s, after, active, s.pollfds[i], r)
  {
    hide Inv, Answers, Truthful, Delivered, SameButRevents, Fill;
    CountSuffices(s, r);
    FillDelivers(s, |s.pollfds|, |r.read| + |r.write| + |r.except|, r);
    assert s.pollfds[..|s.pollfds|] == s.pollfds;
  }
}

/** The poller as an object. */
module SelectPollerClass {
  import opened Outcomes
  import opened SelectPoller

  class Selector {
    var objects: map<nat, Channel>
    var pollfds: seq<PollFd>
    var channels: map<int, nat>
    ghost var first: set<nat>

    ghost function State(): Poller
      reads this
    {
      Poller(objects, pollfds, channels, first)
    }

    ghost predicate Valid()
      reads this
    {
      Inv(State())
    }

    constructor ()
      ensures Valid() && State() == EmptyPoller
    {
      objects, pollfds, channels, first := map[], [], map[], {};
    }

    /** `Channel::update` with a new interest, and `updateChannel`; false when an assert fails. */
    method SetEvents(c: nat, events: Interest) returns (ok: bool)
      requires Valid() && c in objects
      modifies this
      ensures ok <==> Safe(old(State()), SetInterest(c, events))
      ensures ok ==> Valid() && Step(old(State()), SetInterest(c, events)) == Ok((State(), []))
    {
      StepOkExactly(State(), SetInterest(c, events));
      objects := objects[c := objects[c].(events := events)];
      ok := Update(c);
    }

    method Update(c: nat) returns (ok: bool)
      requires c in objects
      modifies this
      ensures ok <==> UpdateChannel(old(State()), c).Ok?
      ensures ok ==> UpdateChannel(old(State()), c) == Ok(State())
    {
      var ch := objects[c];
      if ch.index < 0 {
        if ch.fd in channels { return false; }
        pollfds := pollfds + [PollFd(ch.fd, ch.events)];
        objects := objects[c := ch.(index := |pollfds| - 1)];
        channels, first := channels[ch.fd := c], first + {c};
      } else {
        if ch.fd !in channels || channels[ch.fd] != c || ch.index >= |pollfds| { return false; }
        if pollfds[ch.index].fd != ch.fd && pollfds[ch.index].fd != Negated(ch.fd) { return false; }
        var p := PollFd(ch.fd, ch.events);
        if ch.events.IsNone() {
          p := p.(fd := Negated(ch.fd));
        }
        pollfds, first := pollfds[ch.index := p], first - {c};
      }
      return true;
    }

    /** `removeChannel`: swap with the last entry, tell its channel, pop; false when an assert fails. */
    method RemoveInterest(c: nat) returns (ok: bool)
      requires Valid() && c in objects
      modifies this
      ensures ok <==> Safe(old(State()), Remove(c))
      ensures ok ==> Valid() && RemoveChannel(old(State()), c) == Ok(State())
    {
      StepOkExactly(State(), Remove(c));
      var ch := objects[c];
      if ch.fd !in channels || channels[ch.fd] != c || !ch.events.IsNone() { return false; }
      if ch.index < 0 || ch.index >= |pollfds| || pollfds[ch.index] != PollFd(Negated(ch.fd), ch.events) {
        return false;
      }
      Unlist(c);
      return true;
    }

    method Unlist(c: nat)
      requires RemoveChannel(State(), c).Ok?
      modifies this
      ensures RemoveChannel(old(State()), c) == Ok(State())
    {
      var ch, n := objects[c], |pollfds| - 1;
      channels := channels - {ch.fd};
      if ch.index != n {
        var atEnd := pollfds[n].fd;
        pollfds := pollfds[ch.index := pollfds[n]][n := pollfds[ch.index]];
        if atEnd < 0 {
          atEnd := Negated(atEnd);
        }
        var last := channels[atEnd];
        objects := objects[last := objects[last].(index := ch.index)];
      }
      pollfds := pollfds[..n];
    }

    /** `fillActiveChannels`. */
    method FillActive(numEvents: nat, r: Sets) returns (active: seq<nat>)
      requires Valid() && Answers(pollfds, r)
      modifies this`objects
      ensures Valid() && Step(old(State()), PollOnce(numEvents, r)) == Ok((State(), active))
    {
      hide Inv, Answers;
      StepOkExactly(State(), PollOnce(numEvents, r));
      active := [];
      var left, i := numEvents, 0;
      while i < |pollfds| && left > 0
        invariant i <= |pollfds| && left + |active| == numEvents
        invariant Fill(old(State()), i, numEvents, r) == Ok((objects, active))
      {
        FillPrefix(old(State()), i + 1, numEvents, r);
        var p := pollfds[i];
        var revents := ReventsOf(p, r);
        if revents != Revents(false, false, false) {
          left := left - 1;
          var c := channels[p.fd];
          objects := objects[c := objects[c].(revents := revents)];
          active := active + [c];
        }
        i := i + 1;
      }
      FillStops(old(State()), i, numEvents, r);
    }
  }

  /** Once the count is used up, the remaining entries change nothing. */
  lemma {:induction false} FillStops(s: Poller, i: nat, n: nat, r: Sets)
    requires i <= |s.pollfds| && Fill(s, i, n, r).Ok?
    requires i == |s.pollfds| || |Fill(s, i, n, r).value.1| >= n
    ensures Fill(s, |s.pollfds|, n, r) == Fill(s, i, n, r)
    decreases |s.pollfds| - i
  {
    if i < |s.pollfds| { FillStops(s, i + 1, n, r); }
  }

  lemma {:induction false} FillPrefix(s: Poller, i: nat, n: nat, r: Sets)
    requires i <= |s.pollfds| && Fill(s, |s.pollfds|, n, r).Ok?
    ensures Fill(s, i, n, r).Ok?
    decreases |s.pollfds| - i
  {
    if i < |s.pollfds| { FillPrefix(s, i + 1, n, r); }
  }
}
