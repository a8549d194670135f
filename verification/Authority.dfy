/** Channel publication by compare-and-swap: any number of publishers, one server.

    The server honours the conditions of section 13.1.1 (If-Match) and section 13.1.2
    (If-None-Match) of RFC 9110 and gives every change of a document a new entity tag. */
module Authority {
  import opened Options

  datatype Document = Document(target: nat, targetsVersion: int)

  datatype Stored = Stored(document: Document, etag: nat)

  /** `held` lists every document the channel has held, in order. */
  datatype Server = Server(current: Option<Stored>, nextTag: nat, held: seq<Document>)

  datatype Condition = IfMatch(etag: nat) | IfNoneMatchAny

  /** A publisher between its requests. A read document is remembered only by the
      condition of the request that follows. */
  datatype Publisher =
    | Ready(document: Document)
    | Checked(document: Document, condition: Condition)
    | Confirmed(document: Document)
    | Raised(document: Document)

  datatype State = State(server: Server, publishers: map<nat, Publisher>)

  /** `served` and `answered` are false when a request or its answer is lost or refused. */
  datatype Action =
    | Start(publisher: nat, document: Document)
    | Get(publisher: nat, served: bool)
    | Put(publisher: nat, served: bool, answered: bool)

  predicate Holds(server: Server, c: Condition) {
    match c
    case IfMatch(etag) => server.current.Some? && server.current.value.etag == etag
    case IfNoneMatchAny => server.current.None?
  }

  function AfterGet(p: Publisher, server: Server): Publisher
    requires p.Ready?
  {
    match server.current
    case None => Checked(p.document, IfNoneMatchAny)
    case Some(Stored(d, etag)) =>
      if d == p.document then Confirmed(d)
      else if p.document.targetsVersion <= d.targetsVersion then Raised(p.document)
      else Checked(p.document, IfMatch(etag))
  }

  function Replaced(server: Server, d: Document): Server {
    Server(Some(Stored(d, server.nextTag)), server.nextTag + 1, server.held + [d])
  }

  function Step(s: State, a: Action): State {
    match a
    case Start(i, d) =>
      if i in s.publishers || d.targetsVersion < 1 then s else s.(publishers := s.publishers[i := Ready(d)])
    case Get(i, served) =>
      if i !in s.publishers || !s.publishers[i].Ready? then s
      else s.(publishers := s.publishers[i := if served then AfterGet(s.publishers[i], s.server)
                                         else Raised(s.publishers[i].document)])
    case Put(i, served, answered) =>
      if i !in s.publishers || !s.publishers[i].Checked? then s
      else
        var Checked(d, condition) := s.publishers[i];
        if served && Holds(s.server, condition) then
          State(Replaced(s.server, d), s.publishers[i := if answered then Confirmed(d) else Raised(d)])
        else s.(publishers := s.publishers[i := Raised(d)])
  }

  function Run(s: State, actions: seq<Action>): State {
    if actions == [] then s else Step(Run(s, actions[..|actions| - 1]), actions[|actions| - 1])
  }

  const EMPTY := State(Server(None, 0, []), map[])

  ghost predicate Rising(held: seq<Document>) {
    forall i, j :: 0 <= i < j < |held| ==> held[i].targetsVersion < held[j].targetsVersion
  }

  /** A tag a publisher matches on stands for one document: while it is current, that
      document is older than the one to be published. */
  ghost predicate Sound(s: State) {
    && Rising(s.server.held)
    && (s.server.current.None? <==> s.server.held == [])
    && (s.server.current.Some? ==>
          s.server.current.value.document == s.server.held[|s.server.held| - 1]
          && s.server.current.value.etag < s.server.nextTag)
    && (forall i :: i in s.publishers && s.publishers[i].Checked? && s.publishers[i].condition.IfMatch? ==>
          && s.publishers[i].condition.etag < s.server.nextTag
          && (Holds(s.server, s.publishers[i].condition) ==>
                s.server.current.value.document.targetsVersion < s.publishers[i].document.targetsVersion))
    && (forall i :: i in s.publishers && s.publishers[i].Confirmed? ==> s.publishers[i].document in s.server.held)
  }

  /** No version below one is ever published or held. */
  ghost predicate Positive(s: State) {
    && (forall d :: d in s.server.held ==> d.targetsVersion >= 1)
    && (forall i :: i in s.publishers ==> s.publishers[i].document.targetsVersion >= 1)
    && (s.server.current.Some? ==> s.server.current.value.document in s.server.held)
  }

  lemma StepIsPositive(s: State, a: Action)
    requires Positive(s)
    ensures Positive(Step(s, a))
  {
    var s' := Step(s, a);
    assert forall i :: i in s'.publishers && !(a.publisher == i) ==> i in s.publishers;
    if a.Put? && s'.server != s.server {
      var d := s.publishers[a.publisher].document;
      assert forall x :: x in s'.server.held <==> x in s.server.held || x == d;
    }
  }

  lemma StepIsSound(s: State, a: Action)
    requires Sound(s)
    ensures Sound(Step(s, a)) && s.server.held <= Step(s, a).server.held
  {
  }

  /** In every interleaving the channel's targets version only rises, and a publisher is
      told of success only for a document the channel has held. */
  lemma {:induction false} ReplacementsRise(actions: seq<Action>)
    ensures Sound(Run(EMPTY, actions)) && Positive(Run(EMPTY, actions))
  {
    if actions != [] {
      ReplacementsRise(actions[..|actions| - 1]);
      StepIsPositive(Run(EMPTY, actions[..|actions| - 1]), actions[|actions| - 1]);
      StepIsSound(Run(EMPTY, actions[..|actions| - 1]), actions[|actions| - 1]);
    }
  }

  /** A publisher that nobody interferes with succeeds, unless the channel already holds a
      different document that is as new. */
  lemma LonePublisherSucceeds(s: State, i: nat, d: Document)
    requires i !in s.publishers && d.targetsVersion >= 1
    ensures var s' := Step(Step(Step(s, Start(i, d)), Get(i, true)), Put(i, true, true));
            i in s'.publishers &&
            match s.server.current
            case None => s'.publishers[i] == Confirmed(d) && s'.server.held == s.server.held + [d]
            case Some(Stored(held, _)) =>
              if held == d then s'.publishers[i] == Confirmed(d) && s'.server == s.server
              else if held.targetsVersion < d.targetsVersion then
                && s'.publishers[i] == Confirmed(d) && s'.server.current.Some?
                && s'.server.current.value.document == d && s'.server.held == s.server.held + [d]
              else s'.publishers[i] == Raised(d) && s'.server == s.server
  {
  }

  /** Of two publishers that read the same state, at most one replaces it. */
  lemma OneWinsTheRace(s: State, i: nat, j: nat, answered: bool, answered': bool)
    requires Sound(s) && i != j && i in s.publishers && j in s.publishers
    requires s.publishers[i].Checked? && s.publishers[j].Checked?
    requires s.publishers[i].condition == s.publishers[j].condition
    ensures var s' := Step(Step(s, Put(i, true, answered)), Put(j, true, answered'));
            |s'.server.held| <= |s.server.held| + 1 && s'.publishers[j].Raised?
  {
  }
}
