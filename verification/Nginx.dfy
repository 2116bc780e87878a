/** The gateway manager's `apply`: write one application's file into the shared
    directory, validate the whole directory, reload, and restore on any failure,
    all under one mutex.  nginx itself is an arbitrary verdict. */
module Nginx {
  import opened Common

  datatype Domain = Domain(hostname: string, certPath: string, keyPath: string)

  datatype Upstream = Upstream(host: string, port: int)

  datatype Config = Config(upstreamName: string, domains: seq<Domain>, upstreams: seq<Upstream>)

  /** The managed *.conf files, by slug. */
  type Directory = map<string, Config>

  predicate SlugChar(c: char) {
    'a' <= c <= 'z' || '0' <= c <= '9'
  }

  predicate SlugCore(s: string) {
    1 <= |s| <= 63 && SlugChar(s[0]) && forall i | 0 < i < |s| :: SlugChar(s[i]) || s[i] == '-'
  }

  /** Python's `$` also matches before one final newline. */
  predicate ValidSlug(s: string) {
    SlugCore(s) || (s != "" && s[|s| - 1] == '\n' && SlugCore(s[..|s| - 1]))
  }

  function Underscored(s: string): (r: string)
    ensures |r| == |s| && forall i | 0 <= i < |s| :: r[i] == if s[i] == '-' then '_' else s[i]
  {
    if s == "" then ""
    else Underscored(s[..|s| - 1]) + [if s[|s| - 1] == '-' then '_' else s[|s| - 1]]
  }

  /** None: no domain or no upstream, so the application leaves routing. */
  function Render(slug: string, domains: seq<Domain>, upstreams: seq<Upstream>): Option<Config> {
    if domains == [] || upstreams == [] then None
    else Some(Config("healer_" + Underscored(slug), domains, upstreams))
  }

  /** Two applications never render the same upstream name. */
  lemma UpstreamNamesDistinct(a: string, b: string)
    requires ValidSlug(a) && ValidSlug(b) && Underscored(a) == Underscored(b)
    ensures a == b
  {
    forall i | 0 <= i < |a| ensures a[i] == b[i] {
      assert Underscored(a)[i] == Underscored(b)[i];
      assert a[i] != '_' && b[i] != '_';
    }
  }

  function Get(dir: Directory, slug: string): Option<Config> {
    if slug in dir then Some(dir[slug]) else None
  }

  /** `_write_or_remove`. */
  function Put(dir: Directory, slug: string, content: Option<Config>): Directory {
    if content.Some? then dir[slug := content.value] else dir - {slug}
  }

  lemma PutBack(dir: Directory, slug: string, content: Option<Config>)
    ensures Put(Put(dir, slug, content), slug, Get(dir, slug)) == dir
  {
  }

  datatype Outcome = InvalidSlug | Applied | Rejected

  class Manager {
    var dir: Directory
    var loaded: Directory

    constructor ()
      ensures dir == loaded == map[]
    {
      dir, loaded := map[], map[];
    }

    /** All or nothing: the new state is on disk and loaded, or nothing changed.
        `valid` is the verdict of nginx -t on a directory, `reloads` the reload's. */
    method Apply(slug: string, domains: seq<Domain>, upstreams: seq<Upstream>,
                 valid: Directory -> bool, reloads: bool) returns (o: Outcome)
      requires dir == loaded
      modifies this
      ensures dir == loaded
      ensures o == InvalidSlug <==> !ValidSlug(slug)
      ensures o == Applied <==>
                ValidSlug(slug) && valid(Put(old(dir), slug, Render(slug, domains, upstreams))) && reloads
      ensures dir == if o == Applied then Put(old(dir), slug, Render(slug, domains, upstreams))
                     else old(dir)
    {
      if !ValidSlug(slug) {
        return InvalidSlug;
      }
      var previous := Get(dir, slug);
      var content := Render(slug, domains, upstreams);
      PutBack(dir, slug, content);
      dir := Put(dir, slug, content);
      if !valid(dir) {
        dir := Put(dir, slug, previous);
        return Rejected;
      }
      if !reloads {
        dir := Put(dir, slug, previous);
        return Rejected;
      }
      loaded := dir;
      return Applied;
    }
  }

  // ---- Any number of threads -------------------------------------------

  datatype Pc =
    | Wanting | Reading | Writing | Validating | Reloading
    | Undoing(recheck: bool) | Rechecking | Finished(ok: bool)

  /** One call: `previous` and `checked` are what it read and what it validated. */
  datatype Call = Call(
    slug: string, content: Option<Config>, pc: Pc, previous: Option<Config>, checked: Directory)

  datatype World = World(dir: Directory, loaded: Directory, holder: Option<nat>, calls: map<nat, Call>)

  datatype Event =
    | Begin(t: nat, slug: string, content: Option<Config>)
    | Lock(t: nat)
    | Refuse(t: nat)
    | Read(t: nat)
    | Write(t: nat)
    | Validate(t: nat, ok: bool)
    | Reload(t: nat, ok: bool)
    | Undo(t: nat)
    | Recheck(t: nat, ok: bool)
    | Unlock(t: nat)

  predicate At(w: World, t: nat, pc: Pc) {
    t in w.calls && w.calls[t].pc == pc
  }

  predicate Enabled(w: World, e: Event) {
    match e
    case Begin(t, _, _) => t !in w.calls
    case Lock(t) => At(w, t, Wanting) && w.holder.None?
    case Refuse(t) => At(w, t, Reading) && !ValidSlug(w.calls[t].slug)
    case Read(t) => At(w, t, Reading) && ValidSlug(w.calls[t].slug)
    case Write(t) => At(w, t, Writing)
    case Validate(t, _) => At(w, t, Validating)
    case Reload(t, _) => At(w, t, Reloading)
    case Undo(t) => At(w, t, Undoing(true)) || At(w, t, Undoing(false))
    case Recheck(t, _) => At(w, t, Rechecking)
    case Unlock(t) => At(w, t, Finished(true)) || At(w, t, Finished(false))
  }

  function Move(w: World, t: nat, pc: Pc): World
    requires t in w.calls
  {
    w.(calls := w.calls[t := w.calls[t].(pc := pc)])
  }

  function Step(w: World, e: Event): World
    requires Enabled(w, e)
  {
    match e
    case Begin(t, slug, content) =>
      w.(calls := w.calls[t := Call(slug, content, Wanting, None, map[])])
    case Lock(t) => Move(w, t, Reading).(holder := Some(t))
    case Refuse(t) => w.(holder := None, calls := w.calls - {t})
    case Read(t) =>
      w.(calls := w.calls[t := w.calls[t].(pc := Writing, previous := Get(w.dir, w.calls[t].slug))])
    case Write(t) =>
      Move(w, t, Validating).(dir := Put(w.dir, w.calls[t].slug, w.calls[t].content))
    case Validate(t, ok) =>
      w.(calls := w.calls[t := w.calls[t].(pc := if ok then Reloading else Undoing(false),
                                           checked := if ok then w.dir else w.calls[t].checked)])
    case Reload(t, ok) =>
      if ok then Move(w, t, Finished(true)).(loaded := w.dir) else Move(w, t, Undoing(true))
    case Undo(t) =>
      Move(w, t, if w.calls[t].pc.recheck then Rechecking else Finished(false)).(
        dir := Put(w.dir, w.calls[t].slug, w.calls[t].previous))
    case Recheck(t, _) => Move(w, t, Finished(false))
    case Unlock(t) => w.(holder := None, calls := w.calls - {t})
  }

  ghost predicate IsRun(events: seq<Event>, worlds: seq<World>) {
    && |worlds| == |events| + 1
    && worlds[0].dir == worlds[0].loaded && worlds[0].holder.None? && worlds[0].calls == map[]
    && forall i | 0 <= i < |events| ::
         Enabled(worlds[i], events[i]) && worlds[i + 1] == Step(worlds[i], events[i])
  }

  /** The directory while `c` holds the mutex, relative to what nginx runs. */
  predicate Holding(w: World, c: Call) {
    match c.pc
    case Wanting => false
    case Reading => w.dir == w.loaded
    case Writing => w.dir == w.loaded && c.previous == Get(w.loaded, c.slug)
    case Validating => Changed(w, c)
    case Reloading => Changed(w, c) && c.checked == w.dir
    case Undoing(_) => Changed(w, c)
    case Rechecking => w.dir == w.loaded
    case Finished(_) => w.dir == w.loaded
  }

  predicate Changed(w: World, c: Call) {
    w.dir == Put(w.loaded, c.slug, c.content) && c.previous == Get(w.loaded, c.slug)
  }

  ghost predicate Inv(w: World) {
    && (w.holder.None? ==> w.dir == w.loaded)
    && (w.holder.Some? ==> w.holder.value in w.calls && Holding(w, w.calls[w.holder.value]))
    && (forall t | t in w.calls && w.holder != Some(t) :: w.calls[t].pc.Wanting?)
  }

  lemma StepKeepsInv(w: World, e: Event)
    requires Inv(w) && Enabled(w, e)
    ensures Inv(Step(w, e))
  {
    if e.Undo? {
      var c := w.calls[e.t];
      PutBack(w.loaded, c.slug, c.content);
    }
  }

  lemma {:induction false} RunKeepsInv(events: seq<Event>, worlds: seq<World>, n: nat)
    requires IsRun(events, worlds) && n < |worlds|
    ensures Inv(worlds[n])
  {
    if n == 0 {
    } else {
      RunKeepsInv(events, worlds, n - 1);
      StepKeepsInv(worlds[n - 1], events[n - 1]);
    }
  }

  /** Whatever the threads do, a successful reload loads exactly the directory
      that call has just validated. */
  lemma ReloadsWhatWasValidated(events: seq<Event>, worlds: seq<World>, n: nat)
    requires IsRun(events, worlds) && n < |events| && events[n].Reload? && events[n].ok
    ensures worlds[n].calls[events[n].t].checked == worlds[n].dir == worlds[n + 1].loaded
  {
    RunKeepsInv(events, worlds, n);
    assert Enabled(worlds[n], events[n]) && worlds[n + 1] == Step(worlds[n], events[n]);
  }

  /** While no call holds the mutex, the files on disk are what nginx runs. */
  lemma DiskIsWhatRuns(events: seq<Event>, worlds: seq<World>, n: nat)
    requires IsRun(events, worlds) && n < |worlds| && worlds[n].holder.None?
    ensures worlds[n].dir == worlds[n].loaded
  {
    RunKeepsInv(events, worlds, n);
  }

  /** Call t takes the mutex at event i and still holds it before event j. */
  ghost predicate HoldsThrough(events: seq<Event>, worlds: seq<World>, t: nat, i: nat, j: nat) {
    && IsRun(events, worlds) && i < j < |worlds|
    && events[i] == Lock(t)
    && forall k | i < k <= j :: worlds[k].holder == Some(t)
  }

  /** What the call has made of the directory it locked. */
  predicate SoFar(before: Directory, w: World, c: Call) {
    w.loaded == if c.pc == Finished(true) then Put(before, c.slug, c.content) else before
  }

  lemma LockSoFar(w: World, t: nat)
    requires Inv(w) && Enabled(w, Lock(t))
    ensures var w' := Step(w, Lock(t));
            t in w'.calls && SameRequest(w, w', t) && SoFar(w.dir, w', w'.calls[t])
  {
  }

  predicate SameRequest(w: World, w': World, t: nat) {
    && t in w.calls && t in w'.calls
    && w'.calls[t].slug == w.calls[t].slug && w'.calls[t].content == w.calls[t].content
  }

  lemma StepSoFar(before: Directory, w: World, e: Event, t: nat)
    requires Inv(w) && Enabled(w, e) && w.holder == Some(t) && Step(w, e).holder == Some(t)
    requires SoFar(before, w, w.calls[t])
    ensures SameRequest(w, Step(w, e), t) && SoFar(before, Step(w, e), Step(w, e).calls[t])
  {
    assert Holding(w, w.calls[t]);
  }

  lemma {:induction false} CallSoFar(events: seq<Event>, worlds: seq<World>, t: nat, i: nat, j: nat)
    requires HoldsThrough(events, worlds, t, i, j)
    ensures SameRequest(worlds[i], worlds[j], t)
    ensures SoFar(worlds[i].dir, worlds[j], worlds[j].calls[t])
  {
    var w, e := worlds[j - 1], events[j - 1];
    RunKeepsInv(events, worlds, j - 1);
    assert Enabled(w, e) && worlds[j] == Step(w, e);
    if i + 1 == j {
      LockSoFar(w, t);
    } else {
      assert w.holder == Some(t);
      CallSoFar(events, worlds, t, i, j - 1);
      StepSoFar(worlds[i].dir, w, e, t);
    }
  }

  /** A completed call, whatever other threads did meanwhile: on success the
      directory is the one it found with its own file replaced or removed; on
      failure it is exactly the one it found. */
  lemma CallIsAtomic(events: seq<Event>, worlds: seq<World>, t: nat, i: nat, j: nat)
    requires HoldsThrough(events, worlds, t, i, j) && j < |events| && events[j] == Unlock(t)
    ensures t in worlds[i].calls && t in worlds[j].calls
    ensures var c := worlds[i].calls[t];
            && worlds[j + 1].loaded == worlds[j + 1].dir
            && worlds[j + 1].dir == if worlds[j].calls[t].pc == Finished(true)
                                    then Put(worlds[i].dir, c.slug, c.content) else worlds[i].dir
  {
    CallSoFar(events, worlds, t, i, j);
    RunKeepsInv(events, worlds, j);
    assert Enabled(worlds[j], events[j]) && worlds[j + 1] == Step(worlds[j], events[j]);
  }

  /** No step of any thread touches a file other than its own call's. */
  lemma OthersUntouched(events: seq<Event>, worlds: seq<World>, n: nat, slug: string)
    requires IsRun(events, worlds) && n < |events|
    requires forall c | c in worlds[n].calls && c == events[n].t :: worlds[n].calls[c].slug != slug
    ensures Get(worlds[n + 1].dir, slug) == Get(worlds[n].dir, slug)
  {
    assert Enabled(worlds[n], events[n]) && worlds[n + 1] == Step(worlds[n], events[n]);
  }
}
