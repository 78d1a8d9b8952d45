/** The last-seen cursor: saved before each event is handled, and read back when the service starts. */
module Cursor {
  import opened Options
  import opened Decimal
  import opened EventModel
  import Service

  /** The cursor file: missing, whole, or cut short. */
  datatype File = Absent | At(time: int) | Torn

  /** How a save ends. It empties the file and then writes it, so one that fails at once keeps the old
      contents, and one that fails or dies later leaves the file torn. */
  datatype Save = Saved | Kept | Tore

  // ----- what is in the file -----

  function CursorText(time: int): string { "{" + "\"last_seen\":" + Itoa(time) + "}" }

  /** A text cut short is no JSON object: it is empty or lacks the closing brace. So a torn file does not
      load, and only a whole one does. */
  lemma CutTextIsUnclosed(time: int, n: nat)
    requires n < |CursorText(time)|
    ensures var cut := CursorText(time)[..n]; cut == "" || cut[n - 1] != '}'
  {
    DigitsRoundTrip(if time < 0 then -time else time);
    var digits := Itoa(time);
    assert forall i :: 0 <= i < |digits| ==> digits[i] != '}';
    assert |"\"last_seen\":"| == 12;
    if n > 13 {
      assert CursorText(time)[n - 1] == digits[n - 14];
    }
  }

  /** And the whole text is read back: an object whose one member is the time saved. */
  lemma TextIsReadBack(time: int)
    requires InInt64(time)
    ensures var text := CursorText(time);
      && |text| > 14 && text[..13] == "{\"last_seen\":" && text[|text| - 1] == '}'
      && ParseInt(text[13..|text| - 1]) == Some(time)
  {
    ItoaRoundTrip(time);
    SignOfItoa(time);
    assert |"\"last_seen\":"| == 12;
    assert "{" + "\"last_seen\":" == "{\"last_seen\":";
    assert CursorText(time)[13..|CursorText(time)| - 1] == Itoa(time);
  }

  function Write(file: File, time: int, save: Save): File {
    match save
    case Saved => At(time)
    case Kept => file
    case Tore => Torn
  }

  // ----- one iteration of the loop -----

  /** What a session holds: the cursor in memory, the cursor on disk, and the events handled so far. */
  datatype Mem = Mem(lastSeen: int, file: File, handled: seq<Event>)

  // The cursor half of one loop iteration.
  function Observe(m: Mem, e: Event, save: Save): Mem {
    if e.createdAt > m.lastSeen then
      m.(lastSeen := e.createdAt, file := Write(m.file, e.createdAt, save))
    else m
  }

  // The other half.
  function Handle(m: Mem, e: Event): Mem { m.(handled := m.handled + [e]) }

  function Process(m: Mem, events: seq<Event>, saves: seq<Save>): Mem
    requires |saves| == |events|
    decreases |events|
  {
    if events == [] then m else
      var k := |events| - 1;
      Handle(Observe(Process(m, events[..k], saves[..k]), events[k], saves[k]), events[k])
  }

  lemma ProcessStep(m: Mem, events: seq<Event>, saves: seq<Save>, i: nat)
    requires |saves| == |events| && i < |events|
    ensures Process(m, events[..i + 1], saves[..i + 1])
      == Handle(Observe(Process(m, events[..i], saves[..i]), events[i], saves[i]), events[i])
  {
    assert events[..i + 1][..i] == events[..i] && saves[..i + 1][..i] == saves[..i];
  }

  /** One session: when it starts, what the relay delivers, how the saves end, and whether the crash that
      ends it falls after the last event's save began and before its handling. */
  datatype Session = Session(now: int, firstSave: Save, events: seq<Event>, saves: seq<Save>, cut: bool)

  predicate WellFormed(s: Session) { |s.saves| == |s.events| && (s.cut ==> s.events != []) }

  // A missing cursor file means a fresh install, which starts at the present.
  function Begin(file: File, handled: seq<Event>, s: Session): Mem
    requires !file.Torn?
  {
    match file
    case At(time) => Mem(time, file, handled)
    case Absent => Mem(s.now, Write(file, s.now, s.firstSave), handled)
  }

  function End(m: Mem, s: Session): Mem
    requires WellFormed(s)
  {
    if s.cut then
      var k := |s.events| - 1;
      Observe(Process(m, s.events[..k], s.saves[..k]), s.events[k], s.saves[k])
    else Process(m, s.events, s.saves)
  }

  /** The service process. The file outlives it; the cursor in memory does not. */
  class Notifier {
    var file: File
    var lastSeen: int
    ghost var handled: seq<Event>
    const service: Service.Service

    constructor (service: Service.Service)
      ensures this.service == service && file == Absent && handled == []
    {
      this.service, file, lastSeen, handled := service, Absent, 0, [];
    }

    // The save at the head of an iteration.
    method SaveCursor(e: Event, save: Save)
      modifies this`file, this`lastSeen
      ensures Mem(lastSeen, file, handled) == Observe(old(Mem(lastSeen, file, handled)), e, save)
    {
      if e.createdAt > lastSeen {
        lastSeen := e.createdAt;
        file := Write(file, lastSeen, save);
      }
    }

    /** A process, from its start to its crash. It gives up at once when the file does not load. */
    method RunSession(s: Session) returns (started: bool)
      requires WellFormed(s)
      modifies this, service, service.digest
      ensures started == !old(file).Torn?
      ensures started ==> Mem(lastSeen, file, handled) == End(Begin(old(file), old(handled), s), s)
      ensures !started ==>
        && file == old(file) && handled == old(handled)
        && service.attempts == old(service.attempts) && service.digest.Now() == old(service.digest.Now())
    {
      started := !file.Torn?;
      if !started {
        return;
      }
      if file.At? {
        lastSeen := file.time;
      } else {
        lastSeen := s.now;
        file := Write(file, lastSeen, s.firstSave);
      }
      ghost var start := Begin(old(file), old(handled), s);
      for i := 0 to |s.events|
        invariant Mem(lastSeen, file, handled) == Process(start, s.events[..i], s.saves[..i])
        invariant s.cut ==> i < |s.events|
      {
        ProcessStep(start, s.events, s.saves, i);
        SaveCursor(s.events[i], s.saves[i]);
        if s.cut && i == |s.events| - 1 {
          return;
        }
        service.HandleEvent(s.events[i]);
        handled := handled + [s.events[i]];
      }
      assert s.events[..|s.events|] == s.events && s.saves[..|s.saves|] == s.saves;
    }
  }

  /** Within a session the cursor in memory never moves back and is never behind the one on disk,
      whatever order events come in and however the saves end. */
  lemma {:induction false} MemoryLeads(m: Mem, events: seq<Event>, saves: seq<Save>, i: nat, j: nat)
    requires |saves| == |events| && i <= j <= |events|
    requires m.file.At? ==> m.file.time <= m.lastSeen
    ensures var a, b := Process(m, events[..i], saves[..i]), Process(m, events[..j], saves[..j]);
      && a.lastSeen <= b.lastSeen
      && (b.file.At? ==> b.file.time <= b.lastSeen)
    decreases j
  {
    if j > 0 {
      var k := j - 1;
      ProcessStep(m, events, saves, k);
      MemoryLeads(m, events, saves, if i < j then i else k, k);
    }
  }
}
