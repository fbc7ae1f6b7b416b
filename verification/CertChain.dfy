/**
 The rotating certificate chain: certificates are minted once for each epoch, cached in
 memory, kept on disk and pruned when they can no longer be served. Clients pin them by hash,
 so what matters is that the certificate of an epoch never changes while it may be served.
 */
module CertChain {
  import opened Wrappers

  // Seconds.
  const STRIDE := 13 * 24 * 60 * 60
  const VALIDITY := 14 * 24 * 60 * 60
  const SLACK := 5 * 60

  // Signatures are randomised: minting twice for one epoch gives different bytes, which
  // `serial` stands for. A certificate also stands for its SHA-256 hash.
  datatype Cert = Cert(serial: nat, notBefore: int, notAfter: int)

  datatype Chain = Chain(anchor: int, len: nat, entries: map<nat, Cert>, disk: map<nat, Cert>)

  // ---------- epochs and windows ----------

  function EpochAt(anchor: int, now: int): nat {
    if now <= anchor then 0 else (now - anchor) / STRIDE
  }

  function NotBefore(anchor: int, epoch: nat): int { anchor + epoch * STRIDE - SLACK }

  function NotAfter(anchor: int, epoch: nat): int { NotBefore(anchor, epoch) + VALIDITY }

  function Mint(anchor: int, epoch: nat, serial: nat): Cert {
    Cert(serial, NotBefore(anchor, epoch), NotAfter(anchor, epoch))
  }

  // Start inclusive, end exclusive.
  predicate InWindow(anchor: int, epoch: nat, now: int) { NotBefore(anchor, epoch) <= now < NotAfter(anchor, epoch) }

  lemma Monotone(anchor: int, now: int, later: int)
    requires now <= later
    ensures EpochAt(anchor, now) <= EpochAt(anchor, later)
  {
    if now > anchor {
      Division(now - anchor);
      Division(later - anchor);
    }
  }

  lemma Division(t: int)
    requires t >= 0
    ensures t / STRIDE * STRIDE <= t < (t / STRIDE + 1) * STRIDE
  {
  }

  // The certificate of the current epoch is valid now exactly when the clock is not more
  // than the slack behind the anchor.
  lemma CurrentWindow(anchor: int, now: int)
    ensures InWindow(anchor, EpochAt(anchor, now), now) <==> now >= anchor - SLACK
  {
    if now > anchor { Division(now - anchor); }
  }

  // It stays valid for the rest of its epoch and a day, less the slack, into the next.
  lemma Overlap(anchor: int, epoch: nat, now: int)
    requires anchor + epoch * STRIDE <= now < anchor + (epoch + 1) * STRIDE + (VALIDITY - STRIDE) - SLACK
    ensures InWindow(anchor, epoch, now)
  {
  }

  // ---------- operations ----------

  // Files of epochs before the previous one go.
  function Prune(disk: map<nat, Cert>, keepFrom: nat): map<nat, Cert> {
    map k | k in disk && k + 1 >= keepFrom :: disk[k]
  }

  function LoadOrMint(c: Chain, epoch: nat, now: int, serial: nat): (r: (Chain, Cert))
  {
    if epoch in c.disk then (c, c.disk[epoch])
    else
      var cert := Mint(c.anchor, epoch, serial);
      (c.(disk := Prune(c.disk[epoch := cert], EpochAt(c.anchor, now))), cert)
  }

  function Entry(c: Chain, epoch: nat, now: int, serial: nat): (r: (Chain, Cert))
    ensures r.0.anchor == c.anchor && r.0.len == c.len
  {
    if epoch in c.entries then (c, c.entries[epoch])
    else
      var l := LoadOrMint(c, epoch, now, serial);
      (l.0.(entries := l.0.entries[epoch := l.1]), l.1)
  }

  // The certificates of consecutive epochs from `base` on, one for each reading of the clock.
  // The clock is read again for every certificate that is minted.
  function Entries(c: Chain, base: nat, times: seq<int>, serial: nat): (r: (Chain, seq<Cert>))
    ensures |r.1| == |times| && r.0.anchor == c.anchor && r.0.len == c.len
    decreases |times|
  {
    if times == [] then (c, [])
    else
      var first := Entry(c, base, times[0], serial);
      var more := Entries(first.0, base + 1, times[1..], serial + 1);
      (more.0, [first.1] + more.1)
  }

  function Clamp(len: nat): nat { if len < 1 then 1 else if len > 64 then 64 else len }

  // A restart: the cache is gone, the directory is not; the window is topped up.
  function Reload(c: Chain, len: nat, now: int, times: seq<int>, serial: nat): Chain {
    Entries(c.(len := Clamp(len), entries := map[]), EpochAt(c.anchor, now), times, serial).0
  }

  // ---------- runs ----------

  // `now` is the clock when an operation starts, `later` and `times` what it says when a
  // certificate is minted.
  datatype Event =
    | Current(now: int, later: int, serial: nat)
    | Forward(now: int, times: seq<int>, serial: nat)
    | Restart(len: nat, now: int, times: seq<int>, serial: nat)

  function Step(c: Chain, e: Event): Chain {
    match e
    case Current(now, later, serial) => Entry(c, EpochAt(c.anchor, now), later, serial).0
    case Forward(now, times, serial) => Entries(c, EpochAt(c.anchor, now), times, serial).0
    case Restart(len, now, times, serial) => Reload(c, len, now, times, serial)
  }

  function Run(c: Chain, events: seq<Event>): Chain
    decreases |events|
  {
    if events == [] then c else Run(Step(c, events[0]), events[1..])
  }

  predicate Rising(from: int, times: seq<int>)
    decreases |times|
  {
    times == [] || (from <= times[0] && Rising(times[0], times[1..]))
  }

  function End(from: int, times: seq<int>): int { if times == [] then from else times[|times| - 1] }

  // The readings after `now` of the clock in one operation.
  function Readings(e: Event): seq<int> { if e.Current? then [e.later] else e.times }

  function Finish(e: Event): int { End(e.now, Readings(e)) }

  // The length of the window a chain of length `len` has after an event.
  function LenAfter(e: Event, len: nat): nat { if e.Restart? then Clamp(e.len) else len }

  // The clock never goes back, and it is read once for each certificate of a window.
  predicate Timely(events: seq<Event>, len: nat, from: int)
    decreases |events|
  {
    events == [] ||
    (var e := events[0];
     && from <= e.now && Rising(e.now, Readings(e))
     && (!e.Current? ==> |e.times| == LenAfter(e, len))
     && Timely(events[1..], LenAfter(e, len), Finish(e)))
  }

  function EndOf(events: seq<Event>, from: int): int { if events == [] then from else Finish(events[|events| - 1]) }

  // ---------- the invariant ----------

  // What a client would be given for an epoch without minting.
  function Pin(c: Chain, epoch: nat): Option<Cert> {
    if epoch in c.entries then Some(c.entries[epoch])
    else if epoch in c.disk then Some(c.disk[epoch])
    else None
  }

  // Every certificate has its epoch's window; cache and directory agree; and whatever is
  // cached and may still be served is on disk.
  predicate Sound(c: Chain, now: int) {
    && (forall k <- c.entries :: c.entries[k] == Mint(c.anchor, k, c.entries[k].serial))
    && (forall k <- c.disk :: c.disk[k] == Mint(c.anchor, k, c.disk[k].serial))
    && (forall k <- c.entries :: k in c.disk ==> c.entries[k] == c.disk[k])
    && (forall k <- c.entries :: k + 1 >= EpochAt(c.anchor, now) ==> k in c.disk)
  }

  // Certificates of epochs that can still be served are as they were.
  ghost predicate Keeps(c: Chain, d: Chain, now: int) {
    && d.anchor == c.anchor
    && forall k: nat :: k + 1 >= EpochAt(c.anchor, now) && Pin(c, k).Some? ==> Pin(d, k) == Pin(c, k)
  }

  lemma NewChainSound(anchor: int, len: nat, now: int)
    ensures Sound(Chain(anchor, len, map[], map[]), now)
  {
  }

  lemma Later(c: Chain, now: int, later: int)
    requires Sound(c, now) && now <= later
    ensures Sound(c, later)
  {
    Monotone(c.anchor, now, later);
  }

  lemma EntrySound(c: Chain, epoch: nat, now: int, serial: nat)
    requires Sound(c, now)
    ensures var r := Entry(c, epoch, now, serial);
            Sound(r.0, now) && Keeps(c, r.0, now) && Pin(r.0, epoch) == Some(r.1)
  {
  }

  lemma KeptPin(c: Chain, d: Chain, now: int, epoch: nat)
    requires Keeps(c, d, now) && epoch + 1 >= EpochAt(c.anchor, now) && Pin(c, epoch).Some?
    ensures Pin(d, epoch) == Pin(c, epoch)
  {
  }

  lemma KeepsTrans(c: Chain, d: Chain, e: Chain, now: int, later: int)
    requires Keeps(c, d, now) && Keeps(d, e, later) && now <= later
    ensures Keeps(c, e, later)
  {
    Monotone(c.anchor, now, later);
    forall k: nat | k + 1 >= EpochAt(c.anchor, later) && Pin(c, k).Some? ensures Pin(e, k) == Pin(c, k) {
      assert Pin(d, k) == Pin(c, k);
    }
  }

  lemma {:induction false} RisingEnds(from: int, times: seq<int>)
    requires Rising(from, times)
    ensures from <= End(from, times)
    decreases |times|
  {
    if times != [] { RisingEnds(times[0], times[1..]); }
  }

  lemma {:induction false} EntriesSound(c: Chain, base: nat, times: seq<int>, serial: nat, from: int)
    requires Sound(c, from) && Rising(from, times)
    ensures var r := Entries(c, base, times, serial);
            Sound(r.0, End(from, times)) && Keeps(c, r.0, End(from, times))
    decreases |times|
  {
    if times != [] {
      hide Entry, Sound, Keeps;
      var now := times[0];
      var first := Entry(c, base, now, serial);
      Later(c, from, now);
      EntrySound(c, base, now, serial);
      RisingEnds(now, times[1..]);
      EntriesSound(first.0, base + 1, times[1..], serial + 1, now);
      KeepsTrans(c, first.0, Entries(c, base, times, serial).0, now, End(from, times));
    } else {
      KeepsItself(c, from);
    }
  }

  lemma KeptAnchor(c: Chain, d: Chain, now: int)
    requires Keeps(c, d, now)
    ensures d.anchor == c.anchor
  {
  }

  lemma KeepsItself(c: Chain, now: int)
    ensures Keeps(c, c, now)
  {
  }

  lemma Unfolded(c: Chain, base: nat, times: seq<int>, serial: nat)
    requires times != []
    ensures var first := Entry(c, base, times[0], serial);
            var more := Entries(first.0, base + 1, times[1..], serial + 1);
            Entries(c, base, times, serial) == (more.0, [first.1] + more.1)
  {
    hide Entry;
  }

  // The i-th certificate of a window is what its epoch is pinned to afterwards.
  lemma {:induction false} WindowPinned(c: Chain, base: nat, times: seq<int>, serial: nat, i: nat, from: int)
    requires Sound(c, from) && Rising(from, times) && i < |times|
    requires base + i + 1 >= EpochAt(c.anchor, End(from, times))
    ensures var r := Entries(c, base, times, serial);
            Pin(r.0, base + i) == Some(r.1[i])
    decreases |times|
  {
    hide Entry, Entries, Sound, Keeps, Pin, EpochAt;
    var now := times[0];
    var first := Entry(c, base, now, serial);
    Later(c, from, now);
    EntrySound(c, base, now, serial);
    Unfolded(c, base, times, serial);
    assert End(from, times) == End(now, times[1..]);
    if i == 0 {
      EntriesSound(first.0, base + 1, times[1..], serial + 1, now);
      KeptPin(first.0, Entries(c, base, times, serial).0, End(from, times), base);
    } else {
      WindowPinned(first.0, base + 1, times[1..], serial + 1, i - 1, now);
      assert base + 1 + (i - 1) == base + i;
    }
  }

  lemma RestartSound(c: Chain, len: nat, now: int)
    requires Sound(c, now)
    ensures var d := c.(len := len, entries := map[]);
            Sound(d, now) && Keeps(c, d, now)
  {
  }

  lemma StepSound(c: Chain, e: Event, from: int)
    requires Sound(c, from) && from <= e.now && Rising(e.now, Readings(e))
    ensures Sound(Step(c, e), Finish(e)) && Keeps(c, Step(c, e), Finish(e)) && e.now <= Finish(e)
  {
    hide Entry, Sound, Keeps, EpochAt;
    Later(c, from, e.now);
    RisingEnds(e.now, Readings(e));
    match e
    case Current(now, later, serial) =>
      Later(c, now, later);
      EntrySound(c, EpochAt(c.anchor, now), later, serial);
    case Forward(now, times, serial) => EntriesSound(c, EpochAt(c.anchor, now), times, serial, now);
    case Restart(len, now, times, serial) =>
      var d := c.(len := Clamp(len), entries := map[]);
      RestartSound(c, Clamp(len), now);
      EntriesSound(d, EpochAt(c.anchor, now), times, serial, now);
      KeepsTrans(c, d, Reload(c, len, now, times, serial), now, Finish(e));
  }

  // Pins survive rotation and restart: over any run with a clock that never goes back, the
  // certificate of every epoch that can still be served at the end is what it was.
  lemma {:induction false} PinsSurvive(c: Chain, events: seq<Event>, from: int)
    requires Sound(c, from) && Timely(events, c.len, from)
    ensures var d := Run(c, events);
            from <= EndOf(events, from) && Sound(d, EndOf(events, from)) && Keeps(c, d, EndOf(events, from))
    decreases |events|
  {
    hide Entry, Sound, Keeps;
    if events != [] {
      var d := Step(c, events[0]);
      StepSound(c, events[0], from);
      PinsSurvive(d, events[1..], Finish(events[0]));
      assert events[1..] != [] ==> events[1..][|events| - 2] == events[|events| - 1];
      KeepsTrans(c, d, Run(d, events[1..]), Finish(events[0]), EndOf(events, from));
    } else {
      KeepsItself(c, from);
    }
  }

  lemma PinnedIsServed(c: Chain, from: int, cert: Cert, now: int, later: int, serial: nat)
    requires Sound(c, from) && Pin(c, EpochAt(c.anchor, now)) == Some(cert) && c.anchor - SLACK <= now
    ensures Entry(c, EpochAt(c.anchor, now), later, serial).1 == cert && cert.notBefore <= now < cert.notAfter
  {
    CurrentWindow(c.anchor, now);
    hide EpochAt;
  }

  // The certificate served at `now` is valid now, and it is one of the hashes handed out
  // before, if those were taken less than `len` epochs ago - whatever happened in between.
  lemma ServedIsPinned(c: Chain, taken: int, times: seq<int>, serial: nat, events: seq<Event>, now: int, later: int, serial': nat)
    requires Sound(c, taken) && Rising(taken, times) && |times| == c.len
    requires Timely(events, c.len, End(taken, times)) && EndOf(events, End(taken, times)) <= now <= later
    requires EpochAt(c.anchor, now) < EpochAt(c.anchor, taken) + c.len
    requires c.anchor - SLACK <= now
    ensures var handed := Entries(c, EpochAt(c.anchor, taken), times, serial);
            var d := Run(handed.0, events);
            var served := Entry(d, EpochAt(d.anchor, now), later, serial').1;
            && served in handed.1
            && served.notBefore <= now < served.notAfter
  {
    hide Entry, Entries, Sound, Keeps, Pin, EpochAt, Rising;
    var base, k := EpochAt(c.anchor, taken), EpochAt(c.anchor, now);
    var handed := Entries(c, base, times, serial);
    var mid := End(taken, times);
    var d := Run(handed.0, events);
    RisingEnds(taken, times);
    EntriesSound(c, base, times, serial, taken);
    PinsSurvive(handed.0, events, mid);
    Monotone(c.anchor, taken, now);
    Monotone(c.anchor, mid, now);
    Monotone(c.anchor, EndOf(events, mid), now);
    WindowPinned(c, base, times, serial, k - base, taken);
    KeptPin(handed.0, d, EndOf(events, mid), k);
    KeptAnchor(handed.0, d, EndOf(events, mid));
    PinnedIsServed(d, EndOf(events, mid), handed.1[k - base], now, later, serial');
  }

  // ---------- the objects ----------

  lemma EntriesStep(certs: seq<Cert>, c: Chain, base: nat, times: seq<int>, serial: nat)
    requires times != []
    ensures var first := Entry(c, base, times[0], serial);
            var more := Entries(first.0, base + 1, times[1..], serial + 1);
            && Entries(c, base, times, serial).0 == more.0
            && certs + Entries(c, base, times, serial).1 == certs + [first.1] + more.1
  {
    hide Entry;
  }

  /** What survives a restart. */
  class Directory {
    var anchor: Option<int>
    var files: map<nat, Cert>

    constructor ()
      ensures anchor == None && files == map[]
    {
      anchor, files := None, map[];
    }

    // Remove the files of epochs that can no longer be served, keeping the previous one.
    method RemoveBefore(keepFrom: nat)
      modifies this`files
      ensures files == Prune(old(files), keepFrom)
    {
      var left := files.Keys;
      while left != {}
        invariant left <= files.Keys <= old(files).Keys
        invariant forall k <- old(files) :: k in files <==> k in left || k + 1 >= keepFrom
        invariant forall k <- files :: files[k] == old(files)[k]
        decreases |left|
      {
        var k :| k in left;
        left := left - {k};
        if k + 1 < keepFrom { files := files - {k}; }
      }
    }
  }

  class CertStore {
    const dir: Directory
    const anchor: int
    const len: nat
    var entries: map<nat, Cert>

    ghost function View(): Chain
      reads this, dir
    {
      Chain(anchor, len, entries, dir.files)
    }

    // Load the directory, or start one, and top up the window. The anchor is the time of the
    // first start.
    constructor (dir: Directory, len: nat, now: int, times: seq<int>, serial: nat)
      requires |times| == Clamp(len)
      modifies dir
      ensures this.dir == dir && dir.anchor == Some(if old(dir.anchor).Some? then old(dir.anchor).value else now)
      ensures View() == Reload(Chain(dir.anchor.value, 0, map[], old(dir.files)), len, now, times, serial)
    {
      this.dir := dir;
      this.len := Clamp(len);
      anchor := if dir.anchor.Some? then dir.anchor.value else now;
      entries := map[];
      new;
      if dir.anchor.None? { dir.anchor := Some(now); }
      var _ := LookupMany(EpochAt(anchor, now), times, serial);
    }

    // Read the certificate from disk, or mint it, write it and prune.
    method LoadOrGenerate(epoch: nat, now: int, serial: nat) returns (cert: Cert)
      modifies dir`files
      ensures (View(), cert) == LoadOrMint(old(View()), epoch, now, serial)
    {
      if epoch in dir.files { return dir.files[epoch]; }
      cert := Mint(anchor, epoch, serial);
      dir.files := dir.files[epoch := cert];
      dir.RemoveBefore(EpochAt(anchor, now));
    }

    method Lookup(epoch: nat, now: int, serial: nat) returns (cert: Cert)
      modifies this, dir`files
      ensures (View(), cert) == Entry(old(View()), epoch, now, serial)
    {
      if epoch in entries { return entries[epoch]; }
      cert := LoadOrGenerate(epoch, now, serial);
      entries := entries[epoch := cert];
    }

    method LookupMany(base: nat, times: seq<int>, serial: nat) returns (certs: seq<Cert>)
      modifies this, dir`files
      ensures (View(), certs) == Entries(old(View()), base, times, serial)
    {
      hide Entry;
      ghost var all := Entries(View(), base, times, serial);
      certs := [];
      assert all.1 == certs + all.1 && times[0..] == times;
      for i := 0 to |times|
        invariant all.0 == Entries(View(), base + i, times[i..], serial + i).0
        invariant all.1 == certs + Entries(View(), base + i, times[i..], serial + i).1
      {
        EntriesStep(certs, View(), base + i, times[i..], serial + i);
        assert times[i..][1..] == times[i + 1..];
        var cert := Lookup(base + i, times[i], serial + i);
        certs := certs + [cert];
      }
      assert certs + [] == certs;
    }

    method CurrentCert(now: int, later: int, serial: nat) returns (cert: Cert)
      modifies this, dir`files
      ensures (View(), cert) == Entry(old(View()), EpochAt(anchor, now), later, serial)
    {
      cert := Lookup(EpochAt(anchor, now), later, serial);
    }

    method ForwardHashes(now: int, times: seq<int>, serial: nat) returns (hashes: seq<Cert>)
      requires |times| == len
      modifies this, dir`files
      ensures (View(), hashes) == Entries(old(View()), EpochAt(anchor, now), times, serial)
    {
      hashes := LookupMany(EpochAt(anchor, now), times, serial);
    }
  }
}
