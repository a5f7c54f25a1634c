/**
 Event subjects on the bus: which stream an event is published to, and how a
 consumer reads stream and type back from the subject
 (internal/eventbus/types.go, streams.go, bus.go).
 */
module Subjects {
  import opened Wrappers
  import opened Strings
  import opened Topics

  predicate IsDecisionEvent(t: string) {
    t in ["DecisionCreated", "DecisionResponded", "DecisionEscalated", "DecisionExpired"]
  }

  predicate IsAgentEvent(t: string) {
    t in ["AgentStarted", "AgentStopped", "AgentCrashed", "AgentIdle", "AgentHeartbeat"]
  }

  predicate IsMailEvent(t: string) {
    t in ["MailSent", "MailRead"]
  }

  predicate IsMutationEvent(t: string) {
    t in ["MutationCreate", "MutationUpdate", "MutationDelete", "MutationComment", "MutationStatus"]
  }

  predicate IsConfigEvent(t: string) {
    t in ["ConfigSet", "ConfigUnset"]
  }

  predicate IsGateEvent(t: string) {
    t in ["GateSatisfied", "GateCleared"]
  }

  predicate IsJackEvent(t: string) {
    t in ["jack.on", "jack.off", "jack.expired", "jack.extend"]
  }

  const HOOKS := "hooks"
  const DECISIONS := "decisions"
  const AGENTS := "agents"
  const MAIL := "mail"
  const MUTATIONS := "mutations"
  const CONFIG := "config"
  const GATE := "gate"
  const INBOX := "inbox"
  const JACK := "jack"

  const STREAM_NAMES := [HOOKS, DECISIONS, AGENTS, MAIL, MUTATIONS, CONFIG, GATE, INBOX, JACK]

  /** The stream an event type belongs to; everything unlisted is a hook event. */
  function Category(t: string): (name: string)
    ensures name in STREAM_NAMES
  {
    if IsDecisionEvent(t) then DECISIONS
    else if IsAgentEvent(t) then AGENTS
    else if IsMailEvent(t) then MAIL
    else if IsMutationEvent(t) then MUTATIONS
    else if IsConfigEvent(t) then CONFIG
    else if IsGateEvent(t) then GATE
    else if IsJackEvent(t) then JACK
    else HOOKS
  }

  /** isHookEvent: none of the seven specialised categories. */
  predicate IsHookEvent(t: string) {
    !IsDecisionEvent(t) && !IsAgentEvent(t) && !IsMailEvent(t) && !IsMutationEvent(t) &&
    !IsConfigEvent(t) && !IsGateEvent(t) && !IsJackEvent(t)
  }

  /** SubjectForEvent: the category prefixes, tried in the order of the source. */
  function SubjectForEvent(t: string): string {
    if IsDecisionEvent(t) then DECISIONS + "." + t
    else if IsAgentEvent(t) then AGENTS + "." + t
    else if IsMailEvent(t) then MAIL + "." + t
    else if IsMutationEvent(t) then MUTATIONS + "." + t
    else if IsConfigEvent(t) then CONFIG + "." + t
    else if IsGateEvent(t) then GATE + "." + t
    else if IsJackEvent(t) then JACK + "." + t
    else HOOKS + "." + t
  }

  function Scope(name: string): string {
    if name != "" then name else "_global"
  }

  function SubjectForDecisionEvent(t: string, requestedBy: string): string {
    DECISIONS + "." + Scope(requestedBy) + "." + t
  }

  function SubjectForHookEvent(t: string, actor: string): string {
    HOOKS + "." + Scope(actor) + "." + t
  }

  /**
   publishToJetStream, choice of subject. `requestedBy` is Some when the event
   carries raw JSON that parses, with the requester read from it.
   */
  method PublishSubject(t: string, requestedBy: Option<string>, actor: string)
      returns (subject: string, ghost middle: string)
    ensures Routed(subject, t, middle)
    ensures subject ==
            if IsHookEvent(t) then SubjectForHookEvent(t, actor)
            else if IsDecisionEvent(t) && requestedBy.Some? then SubjectForDecisionEvent(t, requestedBy.value)
            else SubjectForEvent(t)
    ensures subject ==
            if t in ["DecisionCreated", "DecisionResponded", "DecisionEscalated", "DecisionExpired"] then
              if requestedBy.None? then "decisions." + t
              else if requestedBy.value == "" then "decisions._global." + t
              else "decisions." + requestedBy.value + "." + t
            else if t in ["AgentStarted", "AgentStopped", "AgentCrashed", "AgentIdle", "AgentHeartbeat"] then
              "agents." + t
            else if t in ["MailSent", "MailRead"] then "mail." + t
            else if
              t in ["MutationCreate", "MutationUpdate", "MutationDelete", "MutationComment", "MutationStatus"]
            then
              "mutations." + t
            else if t in ["ConfigSet", "ConfigUnset"] then "config." + t
            else if t in ["GateSatisfied", "GateCleared"] then "gate." + t
            else if t in ["jack.on", "jack.off", "jack.expired", "jack.extend"] then "jack." + t
            else if actor == "" then "hooks._global." + t
            else "hooks." + actor + "." + t
  {
    PrefixesSpelledOut(t);
    subject, middle := SubjectForEvent(t), "";
    SubjectForEventRouted(t);
    if IsDecisionEvent(t) && requestedBy.Some? {
      subject, middle := SubjectForDecisionEvent(t, requestedBy.value), Scope(requestedBy.value) + ".";
      ScopedRouted(DECISIONS, Scope(requestedBy.value), t);
    }
    if IsHookEvent(t) {
      subject, middle := SubjectForHookEvent(t, actor), Scope(actor) + ".";
      ScopedRouted(HOOKS, Scope(actor), t);
    }
  }

  lemma PrefixesSpelledOut(t: string)
    ensures HOOKS + "." == "hooks." && DECISIONS + "." == "decisions." && AGENTS + "." == "agents."
    ensures MAIL + "." == "mail." && MUTATIONS + "." == "mutations." && CONFIG + "." == "config."
    ensures GATE + "." == "gate." && JACK + "." == "jack."
    ensures HOOKS + "." + "_global" + "." == "hooks._global."
    ensures DECISIONS + "." + "_global" + "." == "decisions._global."
  {}

  lemma SubjectForEventRouted(t: string)
    ensures SubjectForEvent(t) == Category(t) + "." + t
    ensures Routed(SubjectForEvent(t), t, "")
  {
    WithoutScope(Category(t), t);
  }

  lemma WithoutScope(name: string, t: string)
    ensures name + "." + "" + t == name + "." + t
  {}

  lemma ScopedRouted(name: string, scope: string, t: string)
    requires Category(t) == name
    ensures Routed(name + "." + scope + "." + t, t, scope + ".")
  {
    assert name + "." + scope + "." + t == name + "." + (scope + ".") + t;
  }

  /** The shape of every published subject: stream, an optional scope, the type. */
  predicate Routed(subject: string, t: string, middle: string) {
    subject == Category(t) + "." + middle + t && (middle == "" || middle[|middle| - 1] == '.')
  }

  /** StreamForSubject: the text before the first dot, when it names a stream; else "". */
  method StreamForSubject(subject: string) returns (name: string)
    ensures name in ["hooks", "decisions", "agents", "mail", "mutations", "config", "gate", "inbox", "jack", ""]
    ensures name in STREAM_NAMES ==> name + "." <= subject
    ensures name in STREAM_NAMES || (name == "" && forall n :: n in STREAM_NAMES ==> !(n + "." <= subject))
  {
    StreamNamesHaveNoDot();
    for i := 0 to |subject|
      invariant '.' !in subject[..i]
    {
      if subject[i] == '.' {
        assert subject[..i + 1] == subject[..i] + ".";
        if subject[..i] in STREAM_NAMES {
          return subject[..i];
        }
        forall n | n in STREAM_NAMES ensures !(n + "." <= subject) {
          NameBeforeDot(n, subject, i);
        }
        return "";
      }
      assert subject[..i + 1] == subject[..i] + [subject[i]];
    }
    assert subject[..|subject|] == subject;
    forall n ensures !(n + "." <= subject) {
      DotInPrefix(n, subject);
    }
    return "";
  }

  lemma DotInPrefix(n: string, subject: string)
    ensures n + "." <= subject ==> '.' in subject
  {
    if n + "." <= subject {
      assert subject[|n|] == (n + ".")[|n|] == '.';
    }
  }

  lemma NameBeforeDot(n: string, subject: string, i: nat)
    requires '.' !in n && i < |subject| && subject[i] == '.' && '.' !in subject[..i]
    ensures n + "." <= subject ==> n == subject[..i]
  {
    if n + "." <= subject {
      DotEndsTheName(n, subject, i);
    }
  }

  lemma DotEndsTheName(n: string, subject: string, i: nat)
    requires '.' !in n && n + "." <= subject
    requires i < |subject| && subject[i] == '.' && '.' !in subject[..i]
    ensures n == subject[..i]
  {
    assert subject[|n|] == (n + ".")[|n|] == '.';
    assert forall k :: 0 <= k < |n| ==> n[k] == subject[k] && n[k] in n;
    assert forall k :: 0 <= k < i ==> subject[k] == subject[..i][k];
  }

  lemma StreamNamesHaveNoDot()
    ensures forall n :: n in STREAM_NAMES ==> '.' !in n
    ensures "" !in STREAM_NAMES
  {}

  /** What follows the last dot of a subject, or all of a subject without dots. */
  predicate IsLastSegment(subject: string, t: string) {
    '.' !in t && (t == subject || (|t| < |subject| && subject[|subject| - |t| - 1..] == "." + t))
  }

  /** EventTypeFromSubject: a scan from the right. */
  method EventTypeFromSubject(subject: string) returns (t: string)
    ensures IsLastSegment(subject, t)
  {
    var i := |subject| - 1;
    while i >= 0
      invariant -1 <= i < |subject|
      invariant '.' !in subject[i + 1..]
    {
      if subject[i] == '.' {
        assert subject[i..] == "." + subject[i + 1..];
        return subject[i + 1..];
      }
      assert subject[i..] == [subject[i]] + subject[i + 1..];
      i := i - 1;
    }
    assert subject[0..] == subject;
    return subject;
  }

  /** The wildcard subject of the stream named n. */
  function StreamWildcard(n: string): string {
    n + ".>"
  }

  /**
   Every published subject falls under exactly one of the nine stream wildcards,
   the one its event type chose.
   */
  lemma PublishedUnderOneStream(subject: string, t: string, middle: string, n: string)
    requires Routed(subject, t, middle)
    requires n in STREAM_NAMES
    ensures Matches(StreamWildcard(n), subject) <==> n == Category(t)
  {
    StreamNamesHaveNoDot();
    assert Category(t) + "." <= subject;
    DotlessWildcard(Category(t), n, subject);
  }

  lemma DotlessWildcard(c: string, n: string, subject: string)
    requires '.' !in c && '.' !in n && n != ANY && n != REST
    requires c + "." <= subject
    ensures Matches(StreamWildcard(n), subject) <==> n == c
  {
    SplitAtom(n, '.');
    SuffixWildcardIsPrefix(n, subject);
    if n + "." <= subject {
      assert subject[..|c|] == c && subject[|c|] == '.';
      DotEndsTheName(n, subject, |c|);
    }
  }

  /**
   An agent that subscribes to its own events is sent exactly those: the pattern
   under its name matches the subject of an actor's event if and only if it is the actor.
   */
  lemma OwnEventsOnly(stream: string, agent: string, actor: string, t: string)
    requires '.' !in stream && stream != "*" && stream != ">"
    requires '.' !in agent && agent != "*" && agent != ">" && '.' !in actor
    ensures Matches(stream + "." + agent + ".>", stream + "." + actor + "." + t) <==> agent == actor
  {
    var prefix := stream + "." + agent;
    SplitAtom(stream, '.');
    SplitAtom(agent, '.');
    SplitConcat(stream, '.', agent);
    assert prefix == stream + (['.'] + agent);
    assert Split(prefix, '.') == [stream, agent];
    SuffixWildcardIsPrefix(prefix, stream + "." + actor + "." + t);
    SameScope(stream + ".", agent, actor, t);
  }

  lemma SameScope(head: string, agent: string, actor: string, t: string)
    requires '.' !in agent && '.' !in actor
    ensures head + agent + "." <= head + actor + "." + t <==> agent == actor
  {
    var s := head + actor + "." + t;
    var tail := s[|head|..];
    assert tail == actor + "." + t;
    if head + agent + "." <= s {
      assert agent + "." <= tail;
      DotEndsTheName(agent, tail, |actor|);
    }
    if agent == actor {
      assert s == head + agent + "." + t;
    }
  }

  /** Published hook events reach the agent they are about and, of agents named without a dot, no other. */
  method PublishHookEvent(t: string, actor: string, agent: string) returns (subject: string)
    requires IsHookEvent(t)
    requires actor != "" && '.' !in actor && '.' !in agent && agent != "*" && agent != ">"
    ensures Matches("hooks." + agent + ".>", subject) <==> agent == actor
  {
    ghost var middle;
    subject, middle := PublishSubject(t, None, actor);
    OwnEventsOnly("hooks", agent, actor, t);
    assert "hooks" + "." + agent + ".>" == "hooks." + agent + ".>";
    assert "hooks" + "." + actor + "." + t == "hooks." + actor + "." + t;
  }

  /** Reading stream and type back from a published subject. */
  method DecodePublished(t: string, requestedBy: Option<string>, actor: string)
      returns (subject: string, stream: string, decoded: string)
    ensures stream == Category(t)
    ensures decoded == t <==> '.' !in t
    ensures forall n :: n in STREAM_NAMES ==> (Matches(StreamWildcard(n), subject) <==> n == stream)
  {
    ghost var middle;
    subject, middle := PublishSubject(t, requestedBy, actor);
    stream := StreamForSubject(subject);
    decoded := EventTypeFromSubject(subject);
    StreamDecodes(subject, t, middle, stream);
    TypeDecodes(subject, t, middle, decoded);
    forall n | n in STREAM_NAMES ensures Matches(StreamWildcard(n), subject) <==> n == Category(t) {
      PublishedUnderOneStream(subject, t, middle, n);
    }
  }

  /** The stream read back from a published subject is the one that was chosen. */
  lemma StreamDecodes(subject: string, t: string, middle: string, stream: string)
    requires Routed(subject, t, middle)
    requires stream in STREAM_NAMES ==> stream + "." <= subject
    requires stream in STREAM_NAMES || forall n :: n in STREAM_NAMES ==> !(n + "." <= subject)
    ensures stream == Category(t)
  {
    StreamNamesHaveNoDot();
    var c := Category(t);
    assert c + "." <= subject;
    assert subject[..|c|] == c && subject[|c|] == '.';
    DotEndsTheName(stream, subject, |c|);
  }

  /** The type read back is the published one exactly when that type has no dot. */
  lemma TypeDecodes(subject: string, t: string, middle: string, decoded: string)
    requires Routed(subject, t, middle)
    requires IsLastSegment(subject, decoded)
    ensures decoded == t <==> '.' !in t
  {
    TypeAfterDot(Category(t), middle, t, subject, decoded);
  }

  lemma TypeAfterDot(c: string, middle: string, t: string, subject: string, decoded: string)
    requires subject == c + "." + middle + t && (middle == "" || middle[|middle| - 1] == '.')
    requires IsLastSegment(subject, decoded)
    ensures decoded == t <==> '.' !in t
  {
    if '.' !in t {
      var head := c + "." + middle;
      assert head[|head| - 1] == '.';
      assert subject[|subject| - |t| - 1..] == "." + t;
      assert subject[|c|] == '.';
      LastSegmentUnique(subject, t, decoded);
    }
  }

  lemma LastSegmentUnique(subject: string, a: string, b: string)
    requires IsLastSegment(subject, a) && IsLastSegment(subject, b) && '.' in subject
    ensures a == b
  {
    LastSegmentIndices(subject, a);
    LastSegmentIndices(subject, b);
  }

  lemma LastSegmentIndices(subject: string, t: string)
    requires IsLastSegment(subject, t) && '.' in subject
    ensures |t| < |subject| && subject[|subject| - |t| - 1] == '.'
    ensures t == subject[|subject| - |t|..]
    ensures forall k :: |subject| - |t| <= k < |subject| ==> subject[k] != '.'
  {
    var rest := subject[|subject| - |t| - 1..];
    assert rest[0] == '.' && rest[1..] == ("." + t)[1..] == t;
    assert forall k :: |subject| - |t| <= k < |subject| ==> subject[k] == t[k - (|subject| - |t|)];
  }
}
