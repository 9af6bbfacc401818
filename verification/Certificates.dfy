/**
  Certificate overlap: which fingerprints the server keeps for an agent, and which
  certificate the agent presents, while rotation responses may be lost.
 */
module Certificates {

  type Fingerprint = string

  /** The list after a rotation: the newest entry so far, then the new one. */
  function Rotated(stored: seq<Fingerprint>, issued: Fingerprint): (r: seq<Fingerprint>)
    ensures 1 <= |r| <= 2 && r[|r| - 1] == issued
  {
    if stored == [] then [issued] else [stored[|stored| - 1], issued]
  }

  /** The index of the first entry that equals the presented fingerprint, or the length. */
  function Find(stored: seq<Fingerprint>, f: Fingerprint): (i: nat)
    ensures i <= |stored|
    ensures i < |stored| ==> stored[i] == f
    ensures forall j :: 0 <= j < i ==> stored[j] != f
  {
    if stored == [] then 0 else if stored[0] == f then 0 else 1 + Find(stored[1..], f)
  }

  /** The list after a request with fingerprint f was let in: using the newest retires the rest. */
  function Retired(stored: seq<Fingerprint>, f: Fingerprint): seq<Fingerprint> {
    if |stored| > 1 && Find(stored, f) == |stored| - 1 then [f] else stored
  }

  /** What happens between an agent and the server; a crash before the save is a lost response. */
  datatype Event =
    | Request
    | Adopted(issued: Fingerprint)
    | Lost(issued: Fingerprint)

  /** The server's list and the certificate that the agent holds. */
  datatype Session = Session(stored: seq<Fingerprint>, held: Fingerprint)

  predicate LetIn(s: Session) { s.held in s.stored }

  /** One event; a rejected request changes nothing, and a rejected rotation issues nothing. */
  function Next(s: Session, e: Event): Session {
    if !LetIn(s) then s
    else
      var kept := Retired(s.stored, s.held);
      match e
      case Request => Session(kept, s.held)
      case Adopted(f) => Session(Rotated(kept, f), f)
      case Lost(f) => Session(Rotated(kept, f), s.held)
  }

  /** Entries of a list, each once. */
  ghost predicate Distinct(stored: seq<Fingerprint>) { forall i, j :: 0 <= i < j < |stored| ==> stored[i] != stored[j] }

  /** A request with the newest certificate leaves only that one; one with an older keeps the list. */
  lemma RequestExact(s: Session)
    requires LetIn(s) && Distinct(s.stored)
    ensures var t := Next(s, Request);
      t.held == s.held && t.stored == if s.held == s.stored[|s.stored| - 1] then [s.held] else s.stored
  {
  }

  /** Once an adopted certificate was used, no other one is let in. */
  lemma SupersededIsOut(s: Session, issued: Fingerprint, other: Fingerprint)
    requires LetIn(s) && issued !in s.stored && other != issued
    ensures var t := Next(Next(s, Adopted(issued)), Request);
      t.held == issued && LetIn(t) && !LetIn(t.(held := other))
  {
    RequestExact(Next(s, Adopted(issued)));
  }

  function Play(s: Session, es: seq<Event>): Session
    decreases |es|
  {
    if es == [] then s else Play(Next(s, es[0]), es[1..])
  }

  /** Responses lost in a row after an event, when n were lost in a row before it. */
  function Streak(e: Event, n: nat): nat {
    match e case Request => n case Adopted(_) => 0 case Lost(_) => n + 1
  }

  function Learn(e: Event, known: set<Fingerprint>): set<Fingerprint> {
    if e.Request? then known else known + {e.issued}
  }

  /** Two responses are lost with no adoption between them, when `n` were lost just before. */
  predicate TwoLost(es: seq<Event>, n: nat)
    decreases |es|
  {
    if n >= 2 then true
    else if es == [] then false
    else TwoLost(es[1..], Streak(es[0], n))
  }

  /** Every issued certificate differs from those issued before and from the ones in use. */
  ghost predicate AllFresh(es: seq<Event>, known: set<Fingerprint>)
    decreases |es|
  {
    es != [] ==> (es[0].Request? || es[0].issued !in known) && AllFresh(es[1..], Learn(es[0], known))
  }

  /** The fingerprint issued last, or `newest` if none was. */
  function NewestIssued(es: seq<Event>, newest: Fingerprint): Fingerprint
    decreases |es|
  {
    if es == [] then newest
    else NewestIssued(es[1..], match es[0] case Request => newest case Adopted(f) => f case Lost(f) => f)
  }

  /** How the list looks after n responses were lost in a row. */
  ghost predicate Shape(s: Session, n: nat) {
    match |s.stored|
    case 1 => n == 0 && s.stored[0] == s.held
    case 2 =>
      && s.stored[0] != s.stored[1]
      && (n == 0 ==> s.held == s.stored[1])
      && (n == 1 ==> s.held == s.stored[0])
      && (n >= 2 ==> s.held !in s.stored)
    case _ => false
  }

  function Entries(s: Session): set<Fingerprint> { set f | f in s.stored }

  lemma Step(s: Session, e: Event, n: nat, known: set<Fingerprint>)
    requires Shape(s, n) && n < 2
    requires Entries(s) <= known && s.held in known
    requires e.Request? || e.issued !in known
    ensures var t := Next(s, e);
      && Shape(t, Streak(e, n))
      && Entries(t) <= Learn(e, known)
      && t.held in Learn(e, known)
  {
  }

  lemma {:induction false} LockedOutForever(s: Session, es: seq<Event>)
    requires !LetIn(s)
    ensures Play(s, es) == s
    decreases |es|
  {
    if es != [] { LockedOutForever(s, es[1..]); }
  }

  lemma {:induction false} PlayKeepsShape(s: Session, es: seq<Event>, n: nat, known: set<Fingerprint>)
    requires Shape(s, n) && n <= 2
    requires Entries(s) <= known && s.held in known && AllFresh(es, known)
    ensures LetIn(Play(s, es)) <==> !TwoLost(es, n)
    ensures 1 <= |Play(s, es).stored| <= 2
    ensures !TwoLost(es, n) ==>
      Play(s, es).stored[|Play(s, es).stored| - 1] == NewestIssued(es, s.stored[|s.stored| - 1])
    decreases |es|
  {
    if n == 2 {
      LockedOutForever(s, es);
    } else if es != [] {
      Step(s, es[0], n, known);
      PlayKeepsShape(Next(s, es[0]), es[1..], Streak(es[0], n), Learn(es[0], known));
    }
  }

  /**
    An agent enrolled with fingerprint f stays let in through any run exactly when no two
    rotation responses are lost without an adoption between them.  While it does, the list
    has at most two entries and ends with the newest one issued.
   */
  lemma LetInUnlessTwoLost(f: Fingerprint, es: seq<Event>)
    requires AllFresh(es, {f})
    ensures var s := Play(Session([f], f), es);
      && (LetIn(s) <==> !TwoLost(es, 0))
      && 1 <= |s.stored| <= 2
      && (LetIn(s) ==> s.stored[|s.stored| - 1] == NewestIssued(es, f))
  {
    PlayKeepsShape(Session([f], f), es, 0, {f});
  }

  /** Two lost responses do happen to lock an agent out. */
  lemma TwoLostResponsesLockOut()
    ensures AllFresh([Lost("b"), Lost("c")], {"a"})
    ensures !LetIn(Play(Session(["a"], "a"), [Lost("b"), Lost("c")]))
  {
  }
}
