/** Create-or-update with retries, step by step, against a server that others write
    to at any moment.  One object is modelled with all its versions. */
module Retries {
  import opened Wrappers
  import opened Cluster

  datatype Fault = Conflict | NotFound | AlreadyExists | VersionOnCreate | Mutation | Other | Exhausted

  datatype Change = Created | Updated | Unchanged

  type Answer = Result<Change, Fault>

  type Mutate = Object -> Result<Object, Reason>

  /** Who wrote a version, and for the operator's calls with which mutation. */
  datatype Author = Elsewhere | Call(initial: Object, mutate: Mutate)

  /** The version is the mutation of the version before; of the caller's object if there was none. */
  ghost predicate Follows(before: Option<Object>, author: Author, after: Option<Object>) {
    author.Call? ==>
      after.Some? && author.mutate(if before.Some? then before.value else author.initial) == Ok(after.value)
  }

  /** The object in hand: what was read last, with its version, else what the caller passed. */
  datatype InHand = InHand(content: Object, version: Option<nat>)

  /** A call to the server with its answer. */
  datatype Call =
    | Asked(answer: Result<Option<Object>, Fault>)
    | Wrote(created: bool, fault: Option<Fault>)

  class Server {
    var versions: seq<Option<Object>> // None while the object does not exist
    ghost var authors: seq<Author>
    ghost var calls: seq<Call>        // the operator's calls so far

    ghost predicate Valid()
      reads this
    {
      && |versions| == |authors| > 0
      && forall k :: 0 < k < |versions| ==> Follows(versions[k - 1], authors[k], versions[k])
    }

    /** Since the given versions, others may have written and this operator has not. */
    ghost predicate OnlyOthers(was: seq<Author>)
      reads this
    {
      was <= authors && forall k :: |was| <= k < |authors| ==> authors[k].Elsewhere?
    }

    constructor (initial: Option<Object>)
      ensures Valid() && versions == [initial] && authors == [Elsewhere] && calls == []
    {
      versions := [initial];
      authors, calls := [Elsewhere], [];
    }

    /** Other writers create, update and delete as they like. */
    method Interfere()
      requires Valid()
      modifies this`versions, this`authors
      ensures Valid() && old(versions) <= versions && OnlyOthers(old(authors))
    {
      var writes: nat :| 0 <= writes;
      for i := 0 to writes
        invariant Valid() && old(versions) <= versions && OnlyOthers(old(authors))
      {
        var next: Option<Object> := *;
        versions := versions + [next];
        authors := authors + [Elsewhere];
      }
    }

    /** A possibly stale read of a version. */
    method Get() returns (r: Result<nat, Fault>)
      requires Valid()
      modifies this`calls
      ensures Valid()
      ensures r.Ok? ==> r.value < |versions| && calls == old(calls) + [Asked(Ok(versions[r.value]))]
      ensures r.Err? ==> r.error == Other && calls == old(calls) + [Asked(Err(r.error))]
    {
      var broken: bool := *;
      if broken {
        calls := calls + [Asked(Err(Other))];
        return Err(Other);
      }
      var i: nat :| i < |versions|;
      calls := calls + [Asked(Ok(versions[i]))];
      return Ok(i);
    }

    /** Refused if the object exists, or carries a version from an earlier read. */
    method Create(obj: InHand, ghost author: Author) returns (fault: Option<Fault>)
      requires Valid() && author.Call?
      requires obj.version.None? ==> author.mutate(author.initial) == Ok(obj.content)
      modifies this
      ensures Valid()
      ensures fault.None? ==> obj.version.None? && old(versions)[|old(versions)| - 1].None?
      ensures fault.None? ==> versions == old(versions) + [Some(obj.content)] && authors == old(authors) + [author]
      ensures fault.Some? ==> versions == old(versions) && authors == old(authors)
      ensures fault.Some? ==> fault.value !in {Conflict, Exhausted}
      ensures calls == old(calls) + [Wrote(true, fault)]
    {
      var broken: bool := *;
      fault :=
        if broken then Some(Other)
        else if obj.version.Some? then Some(VersionOnCreate)
        else if versions[|versions| - 1].Some? then Some(AlreadyExists)
        else None;
      calls := calls + [Wrote(true, fault)];
      if fault.None? {
        versions := versions + [Some(obj.content)];
        authors := authors + [author];
      }
    }

    /** Accepted only if the version in hand is the latest. */
    method Update(obj: InHand, ghost author: Author) returns (fault: Option<Fault>)
      requires Valid() && author.Call? && obj.version.Some? && obj.version.value < |versions|
      requires versions[obj.version.value].Some? && author.mutate(versions[obj.version.value].value) == Ok(obj.content)
      modifies this
      ensures Valid()
      ensures fault.None? ==> obj.version.value == |old(versions)| - 1
      ensures fault.None? ==> versions == old(versions) + [Some(obj.content)] && authors == old(authors) + [author]
      ensures fault.Some? ==> versions == old(versions) && authors == old(authors) && fault.value != Exhausted
      ensures calls == old(calls) + [Wrote(false, fault)]
    {
      var broken: bool := *;
      fault :=
        if broken then Some(Other)
        else if versions[|versions| - 1].None? then Some(Fault.NotFound)
        else if obj.version.value != |versions| - 1 then Some(Conflict)
        else None;
      calls := calls + [Wrote(false, fault)];
      if fault.None? {
        versions := versions + [Some(obj.content)];
        authors := authors + [author];
      }
    }
  }

  /** What one attempt did: a commit whose author is this call, on top of whatever
      others wrote before it; or nothing. */
  ghost predicate Committed(s: Server, was: seq<Author>, author: Author, answer: Answer)
    reads s
  {
    if answer in {Ok(Created), Ok(Updated)} then
      && |was| < |s.authors| && was <= s.authors
      && s.authors[|s.authors| - 1] == author
      && (forall k :: |was| <= k < |s.authors| - 1 ==> s.authors[k].Elsewhere?)
    else s.OnlyOthers(was)
  }

  /** Some version was found as the mutation would leave it. */
  ghost predicate FoundDone(versions: seq<Option<Object>>, mutate: Mutate) {
    exists i :: 0 <= i < |versions| && versions[i].Some? && mutate(versions[i].value) == Ok(versions[i].value)
  }

  /** The object to mutate after a read: what was found, else what was in hand. */
  function Base(found: Option<Object>, content: Object): Object {
    if found.Some? then found.value else content
  }

  /** One attempt at the server: a read, and a write exactly if the read succeeded, the
      mutation did, and an object that was found is not already as wanted.  The write is
      an update if the read found the object and a creation if it did not. */
  predicate IsAttempt(calls: seq<Call>, content: Object, mutate: Mutate) {
    && 1 <= |calls| <= 2 && calls[0].Asked? && (calls[0].answer.Err? ==> calls[0].answer.error == Other)
    && (|calls| == 2 <==> calls[0].answer.Ok? && Writes(calls[0].answer.value, content, mutate))
    && (|calls| == 2 ==>
          calls[1].Wrote? && (calls[1].created <==> calls[0].answer.value.None?)
            && calls[1] != Wrote(true, Some(Conflict)))
  }

  predicate Writes(found: Option<Object>, content: Object, mutate: Mutate) {
    mutate(Base(found, content)).Ok? && (found.Some? ==> mutate(found.value) != Ok(found.value))
  }

  /** The answer that the last call of an attempt leads to. */
  function AnswerTo(last: Call, content: Object, mutate: Mutate): Answer {
    match last
    case Wrote(created, None) => Ok(if created then Created else Updated)
    case Wrote(_, Some(fault)) => Err(fault)
    case Asked(Err(fault)) => Err(fault)
    case Asked(Ok(found)) => if mutate(Base(found, content)).Err? then Err(Mutation) else Ok(Unchanged)
  }

  /** What is in hand after the calls: the mutation of the last object found. */
  function InHandAfter(calls: seq<Call>, content: Object, mutate: Mutate): Object {
    if calls == [] then content
    else
      match calls[|calls| - 1]
      case Asked(Ok(Some(o))) => if mutate(o).Ok? then mutate(o).value else o
      case _ => InHandAfter(calls[..|calls| - 1], content, mutate)
  }

  /** One attempt: read, mutate, and create or update unless nothing changed. */
  method CreateOrUpdate(s: Server, hand: InHand, initial: Object, mutate: Mutate) returns (answer: Answer, next: InHand)
    requires s.Valid() && (hand.version.None? ==> hand.content == initial)
    modifies s
    ensures s.Valid() && old(s.versions) <= s.versions && old(s.calls) <= s.calls
    ensures var attempt := s.calls[|old(s.calls)|..];
      && IsAttempt(attempt, hand.content, mutate) && answer == AnswerTo(attempt[|attempt| - 1], hand.content, mutate)
      && (answer == Err(Conflict) ==>
            attempt[0].answer.value.Some? && mutate(attempt[0].answer.value.value) == Ok(next.content))
    ensures Committed(s, old(s.authors), Call(initial, mutate), answer)
    ensures answer in {Ok(Created), Ok(Updated)} ==> (answer == Ok(Created) <==> s.versions[|s.versions| - 2].None?)
    ensures answer == Ok(Unchanged) ==> FoundDone(s.versions, mutate)
    ensures answer == Err(Conflict) ==> next.version.Some?
    ensures answer == Ok(Created) ==> hand.version.None?
    ensures answer != Err(Exhausted)
  {
    ghost var author, before := Author.Call(initial, mutate), s.calls;
    next := hand;
    s.Interfere();
    var read := s.Get();
    if read.Err? {
      assert s.calls[|before|..] == [Asked(Err(read.error))];
      return Err(read.error), next;
    }
    var found := s.versions[read.value];
    ghost var asked := Asked(Ok(found));
    assert s.calls == before + [asked] && s.calls[|before|..] == [asked];
    if found.Some? {
      next := InHand(found.value, Some(read.value));
    }
    var mutated := mutate(next.content);
    if mutated.Err? {
      return Err(Mutation), next;
    }
    next := next.(content := mutated.value);
    if found == Some(mutated.value) {
      return Ok(Unchanged), next;
    }
    ghost var was := s.versions;
    s.Interfere();
    var fault: Option<Fault>;
    if found.Some? {
      assert s.versions[read.value] == was[read.value];
      fault := s.Update(next, author);
    } else {
      fault := s.Create(next, author);
    }
    assert s.calls == before + [asked] + [Wrote(found.None?, fault)];
    assert s.calls[|before|..] == [asked, Wrote(found.None?, fault)];
    if fault.Some? {
      return Err(fault.value), next;
    }
    return Ok(if found.Some? then Updated else Created), next;
  }

  /** Steps of the default backoff. */
  const ATTEMPTS := 4

  function Reads(calls: seq<Call>): nat {
    if calls == [] then 0 else Reads(calls[..|calls| - 1]) + if calls[|calls| - 1].Asked? then 1 else 0
  }

  /** What may come after the calls: a read at first and after a conflict; a write after a
      successful read of something that the mutation changes; nothing after anything else. */
  predicate MayFollow(calls: seq<Call>, next: Call, initial: Object, mutate: Mutate) {
    if calls == [] then next.Asked?
    else
      match calls[|calls| - 1]
      case Wrote(created, fault) => next.Asked? && !created && fault == Some(Conflict)
      case Asked(Err(_)) => false
      case Asked(Ok(found)) =>
        && Writes(found, InHandAfter(calls[..|calls| - 1], initial, mutate), mutate)
        && next.Wrote? && (next.created <==> found.None?)
  }

  /** The calls of a whole call, from its first read on. */
  predicate InOrder(calls: seq<Call>, initial: Object, mutate: Mutate) {
    calls == [] ||
    (var n := |calls| - 1; InOrder(calls[..n], initial, mutate) && MayFollow(calls[..n], calls[n], initial, mutate))
  }

  lemma {:induction false} OrderAt(calls: seq<Call>, initial: Object, mutate: Mutate, i: nat)
    requires InOrder(calls, initial, mutate) && i < |calls|
    ensures MayFollow(calls[..i], calls[i], initial, mutate)
  {
    hide MayFollow;
    if i + 1 < |calls| {
      var n := |calls| - 1;
      OrderAt(calls[..n], initial, mutate, i);
      assert calls[..n][..i] == calls[..i];
    }
  }

  /** Put differently: two calls in a row are a conflict and the next read, or a read and
      its write, and then what was found was not as wanted. */
  lemma InARow(calls: seq<Call>, initial: Object, mutate: Mutate, i: nat)
    requires InOrder(calls, initial, mutate) && i + 1 < |calls|
    ensures calls[0].Asked?
    ensures calls[i].Wrote? ==> calls[i] == Wrote(false, Some(Conflict)) && calls[i + 1].Asked?
    ensures calls[i].Asked? ==> calls[i].answer.Ok? && calls[i + 1].Wrote?
    ensures calls[i].Asked? && calls[i].answer.value.Some? ==>
      var o := calls[i].answer.value.value;
      !calls[i + 1].created && mutate(o).Ok? && mutate(o) != Ok(o)
    ensures calls[i].Asked? && calls[i].answer.value.None? ==> calls[i + 1].created
  {
    OrderAt(calls, initial, mutate, 0);
    OrderAt(calls, initial, mutate, i + 1);
    assert calls[..i + 1][i] == calls[i];
  }

  /** Retries conflicts, and only conflicts, up to four attempts in all.  The call
      commits one version at most: its mutation of exactly the version it replaces.
      On an error it has committed nothing. */
  method CreateOrUpdateWithRetries(s: Server, initial: Object, mutate: Mutate) returns (answer: Answer)
    requires s.Valid()
    modifies s
    ensures s.Valid() && old(s.versions) <= s.versions && old(s.calls) <= s.calls
    ensures Transcript(s.calls[|old(s.calls)|..], initial, mutate, answer)
    ensures Committed(s, old(s.authors), Author.Call(initial, mutate), answer)
    ensures answer in {Ok(Created), Ok(Updated)} ==> (answer == Ok(Created) <==> s.versions[|s.versions| - 2].None?)
    ensures answer == Ok(Unchanged) ==> FoundDone(s.versions, mutate)
    ensures answer == Ok(Created) ==> |s.calls| == |old(s.calls)| + 2
  {
    hide *;
    var hand := InHand(initial, None);
    ghost var before: seq<Call>, mine: seq<Call> := s.calls, [];
    assert before + mine == before;
    NoCalls(initial, mutate);
    NoneYet(s);
    for i := 0 to ATTEMPTS
      invariant s.Valid() && old(s.versions) <= s.versions && s.OnlyOthers(old(s.authors))
      invariant s.calls == before + mine && AllConflicts(mine, i, initial, mutate)
      invariant hand.version.None? ==> hand.content == initial
      invariant if i > 0 then hand.version.Some? else mine == []
      invariant hand.content == InHandAfter(mine, initial, mutate)
    {
      ghost var sofar, content, was := s.calls, hand.content, s.authors;
      OthersSince(s, old(s.authors));
      answer, hand := CreateOrUpdate(s, hand, initial, mutate);
      ghost var attempt := s.calls[|sofar|..];
      ShapeOf(attempt, content, mutate);
      OneAttemptMore(mine, attempt, i, initial, mutate, content, answer);
      CommittedSince(s, old(s.authors), was, Author.Call(initial, mutate), answer);
      if answer == Err(Conflict) {
        InHandNow(mine, attempt, initial, mutate, content, hand.content);
      }
      mine := mine + attempt;
      assert s.calls == before + mine;
      if answer != Err(Conflict) {
        if answer == Ok(Created) {
          NoCallsYet(mine, attempt, initial, mutate, content);
        }
        assert s.calls[|before|..] == mine;
        return;
      }
    }
    assert s.calls[|before|..] == mine;
    GivesUp(mine, initial, mutate);
    NothingCommitted(s, old(s.authors), Author.Call(initial, mutate));
    return Err(Exhausted);
  }

  /** A creation that succeeds belongs to the first attempt, for later ones carry a version. */
  lemma NoCallsYet(mine: seq<Call>, attempt: seq<Call>, initial: Object, mutate: Mutate, content: Object)
    requires IsAttempt(attempt, content, mutate) && AnswerTo(attempt[|attempt| - 1], content, mutate) == Ok(Created)
    ensures |attempt| == 2
  {
  }

  lemma OthersSince(s: Server, was: seq<Author>)
    requires s.OnlyOthers(was)
    ensures was <= s.authors && forall k :: |was| <= k < |s.authors| ==> s.authors[k].Elsewhere?
  {
  }

  lemma NoneYet(s: Server)
    ensures s.OnlyOthers(s.authors) && ATTEMPTS >= 0
  {
  }

  lemma ShapeOf(attempt: seq<Call>, content: Object, mutate: Mutate)
    requires IsAttempt(attempt, content, mutate)
    ensures attempt != [] && attempt[0].Asked?
    ensures AnswerTo(attempt[|attempt| - 1], content, mutate) == Err(Conflict) ==>
      attempt[0].answer.Ok? && attempt[0].answer.value.Some?
  {
  }

  /** What an attempt committed, the whole call committed, if no earlier attempt did. */
  lemma CommittedSince(s: Server, start: seq<Author>, was: seq<Author>, author: Author, answer: Answer)
    requires start <= was && (forall k :: |start| <= k < |was| ==> was[k].Elsewhere?)
      && Committed(s, was, author, answer)
    ensures Committed(s, start, author, answer)
    ensures answer.Err? ==> s.OnlyOthers(start)
  {
  }

  lemma NothingCommitted(s: Server, was: seq<Author>, author: Author)
    requires s.OnlyOthers(was)
    ensures Committed(s, was, author, Err(Exhausted))
  {
  }

  /** What the calls of a whole call look like: up to four attempts, each but the last
      ending in a conflict, and the answer that the last call leads to; or four attempts
      that all met a conflict. */
  predicate Transcript(calls: seq<Call>, initial: Object, mutate: Mutate, answer: Answer) {
    && calls != [] && InOrder(calls, initial, mutate) && Reads(calls) <= ATTEMPTS
    && var n := |calls| - 1;
       if calls[n] == Wrote(false, Some(Conflict)) then Reads(calls) == ATTEMPTS && answer == Err(Exhausted)
       else
         && answer == AnswerTo(calls[n], InHandAfter(calls[..n], initial, mutate), mutate) != Err(Exhausted)
         && (calls[n].Asked? && calls[n].answer.Ok? ==>
               !Writes(calls[n].answer.value, InHandAfter(calls[..n], initial, mutate), mutate))
  }

  /** A successful read of an object that is already as wanted ends the call, which
      answers that nothing changed and has written nothing since; and only then does a
      call say so.  There are four reads at most. */
  lemma NothingToChangeIff(calls: seq<Call>, initial: Object, mutate: Mutate, answer: Answer, i: nat)
    requires Transcript(calls, initial, mutate, answer) && i < |calls|
    ensures Reads(calls) <= 4
    ensures answer == Err(Exhausted) <==> calls[|calls| - 1] == Wrote(false, Some(Conflict))
    ensures answer == Err(Exhausted) ==> Reads(calls) == 4
    ensures (exists o :: calls[i] == Asked(Ok(Some(o))) && mutate(o) == Ok(o)) <==>
      i == |calls| - 1 && answer == Ok(Unchanged)
  {
    var n := |calls| - 1;
    if i < n {
      InARow(calls, initial, mutate, i);
    } else if answer == Ok(Unchanged) {
      assert calls[n].Asked? && calls[n].answer.Ok?;
      assert calls[n].answer.value.Some?;
      assert calls[n] == Asked(Ok(Some(calls[n].answer.value.value)));
    }
  }

  /** So many attempts, each of which ended in a conflict. */
  predicate AllConflicts(calls: seq<Call>, attempts: nat, initial: Object, mutate: Mutate) {
    && Reads(calls) == attempts && InOrder(calls, initial, mutate)
    && (calls != [] ==> calls[|calls| - 1] == Wrote(false, Some(Conflict))) && (calls == [] ==> attempts == 0)
  }

  lemma NoCalls(initial: Object, mutate: Mutate)
    ensures AllConflicts([], 0, initial, mutate) && InHandAfter([], initial, mutate) == initial
  {
  }

  lemma GivesUp(calls: seq<Call>, initial: Object, mutate: Mutate)
    requires AllConflicts(calls, ATTEMPTS, initial, mutate)
    ensures Transcript(calls, initial, mutate, Err(Exhausted))
  {
  }

  lemma OneCallMore(calls: seq<Call>, c: Call, initial: Object, mutate: Mutate)
    requires InOrder(calls, initial, mutate) && MayFollow(calls, c, initial, mutate)
    ensures InOrder(calls + [c], initial, mutate) && Reads(calls + [c]) == Reads(calls) + if c.Asked? then 1 else 0
  {
    assert (calls + [c])[..|calls|] == calls;
  }

  lemma AttemptAppended(before: seq<Call>, attempt: seq<Call>, attempts: nat, initial: Object, mutate: Mutate)
    requires AllConflicts(before, attempts, initial, mutate)
    requires IsAttempt(attempt, InHandAfter(before, initial, mutate), mutate)
    ensures InOrder(before + attempt, initial, mutate) && Reads(before + attempt) == attempts + 1
  {
    hide InOrder, Reads, InHandAfter;
    var first := before + [attempt[0]];
    OneCallMore(before, attempt[0], initial, mutate);
    if |attempt| == 1 {
      assert before + attempt == first;
    } else {
      assert first[..|before|] == before;
      OneCallMore(first, attempt[1], initial, mutate);
      assert before + attempt == first + [attempt[1]];
    }
  }

  lemma OneAttemptMore(before: seq<Call>, attempt: seq<Call>, attempts: nat, initial: Object, mutate: Mutate,
                       content: Object, answer: Answer)
    requires AllConflicts(before, attempts, initial, mutate) && attempts < ATTEMPTS
    requires content == InHandAfter(before, initial, mutate) && IsAttempt(attempt, content, mutate)
    requires answer == AnswerTo(attempt[|attempt| - 1], content, mutate) && answer != Err(Exhausted)
    ensures if answer == Err(Conflict) then AllConflicts(before + attempt, attempts + 1, initial, mutate)
      else Transcript(before + attempt, initial, mutate, answer)
  {
    var calls := before + attempt;
    var n := |calls| - 1;
    AttemptAppended(before, attempt, attempts, initial, mutate);
    assert calls[n] == attempt[|attempt| - 1];
    if |attempt| == 1 {
      assert calls[..n] == before;
    } else {
      WriteAnswers(calls[n], content, InHandAfter(calls[..n], initial, mutate), mutate);
    }
    hide InOrder, Reads, InHandAfter;
  }

  lemma WriteAnswers(last: Call, a: Object, b: Object, mutate: Mutate)
    requires last.Wrote?
    ensures AnswerTo(last, a, mutate) == AnswerTo(last, b, mutate)
  {
  }

  lemma InHandNow(before: seq<Call>, attempt: seq<Call>, initial: Object, mutate: Mutate, content: Object, next: Object)
    requires IsAttempt(attempt, content, mutate)
    requires AnswerTo(attempt[|attempt| - 1], content, mutate) == Err(Conflict)
    requires attempt[0].answer.Ok? && attempt[0].answer.value.Some?
    requires mutate(attempt[0].answer.value.value) == Ok(next)
    ensures InHandAfter(before + attempt, initial, mutate) == next
  {
    var calls := before + attempt;
    assert |attempt| == 2;
    var n := |calls| - 1;
    assert calls[n] == attempt[1] && calls[..n] == before + [attempt[0]];
    assert calls[..n][n - 1] == attempt[0];
  }

  // ----- what the calls amount to ---------------------------------------

  /** The mutation of a reconciler: overwrite the patched parts, unless the object
      belongs to another owner. */
  function PatchWith(p: Patch): Mutate {
    (o: Object) => if p.owner.Some? && o.owner !in {None, p.owner} then Err(AlreadyOwned) else Ok(Patched(o, p))
  }

  /** A version that a call committed is what the upsert makes of the store at that
      moment, and the upsert is acceptable there. */
  lemma CommitIsUpsert(st: Store, r: Ref, initial: Object, p: Patch, before: Option<Object>, after: Option<Object>)
    requires before == if r in st then Some(st[r]) else None
    requires Follows(before, Call(initial, PatchWith(p)), after)
    ensures var op := Upsert(r, initial, p); Accepts(st, op) && Some(Apply(st, op)[r]) == after
  {
  }

  /** The object that the calls produce one after the other. */
  function Serially(start: Object, calls: seq<Author>): Result<Object, Reason>
    requires forall k :: 0 <= k < |calls| ==> calls[k].Call?
  {
    if calls == [] then Ok(start)
    else match Serially(start, calls[..|calls| - 1])
         case Err(why) => Err(why)
         case Ok(o) => calls[|calls| - 1].mutate(o)
  }

  /** No update is lost: between two versions that only calls lie between, the later
      one is the earlier one with every committed mutation applied, in order. */
  lemma {:induction false} NoLostUpdate(versions: seq<Option<Object>>, authors: seq<Author>, i: nat, j: nat)
    requires |versions| == |authors| && i <= j < |versions| && versions[i].Some?
    requires forall k :: 0 < k < |versions| ==> Follows(versions[k - 1], authors[k], versions[k])
    requires forall k :: i < k <= j ==> authors[k].Call?
    ensures versions[j].Some? && Serially(versions[i].value, authors[i + 1..j + 1]) == Ok(versions[j].value)
    decreases j
  {
    if i < j {
      NoLostUpdate(versions, authors, i, j - 1);
      assert authors[i + 1..j + 1][..j - i - 1] == authors[i + 1..j];
      assert Follows(versions[j - 1], authors[j], versions[j]);
    }
  }
}
