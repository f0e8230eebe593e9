/** The voice executor's link to the persistent voice agent: the `pendingRequests`
    map of `voice-executor.js`, the agent's stdout handler that resolves the oldest
    pending request, the 30-second timeout of each request, and `extractResponse`,
    which pulls the answer out of the agent's output.

    A JavaScript promise is named here by a number; `settled` records the value
    each promise was resolved with. A promise resolves at most once, so settling an
    already settled promise changes nothing. */
module VoiceRequests {
  import opened Text

  // ---------------------------------------------------------------------------
  // extractResponse

  const FindingsMarker := "Findings:"

  /** The index of the first line containing `p`. */
  function FirstLineWith(lines: seq<string>, p: string): (r: Option<nat>)
    ensures r.Some? ==> r.value < |lines| && Contains(lines[r.value], p)
    ensures r.Some? ==> forall j | 0 <= j < r.value :: !Contains(lines[j], p)
    ensures r.None? ==> forall j | 0 <= j < |lines| :: !Contains(lines[j], p)
  {
    if lines == [] then None
    else if Contains(lines[0], p) then Some(0)
    else match FirstLineWith(lines[1..], p)
      case None => None
      case Some(k) => Some(k + 1)
  }

  /** The agent's answer: the lines after the first line mentioning the findings,
      joined with spaces, or the whole output when no line mentions them; trimmed. */
  function ExtractResponse(output: string): string {
    var lines := Split(output, '\n');
    match FirstLineWith(lines, FindingsMarker)
    case Some(i) => TextAfterLine(lines, i)
    case None => Trim(output)
  }

  /** The lines after line `i`, joined with spaces and trimmed: of lines without
      line breaks, a single line. */
  function TextAfterLine(lines: seq<string>, i: nat): (r: string)
    requires i < |lines|
    ensures (forall k | 0 <= k < |lines| :: '\n' !in lines[k]) ==> '\n' !in r
  {
    AfterFindingsLine(lines, i);
    Trim(Join(lines[i + 1..], " "))
  }

  /** Some line mentions the findings exactly when the output does, since the marker
      holds no line break. */
  lemma FindingsLineIff(output: string)
    ensures FirstLineWith(Split(output, '\n'), FindingsMarker).Some? <==> Contains(output, FindingsMarker)
  {
    var lines := Split(output, '\n');
    JoinSplit(output, '\n');
    assert '\n' !in FindingsMarker;
    JoinedOccurrence(lines, '\n', FindingsMarker);
    if FirstLineWith(lines, FindingsMarker).Some? {
      PartInJoin(lines, ['\n'], FirstLineWith(lines, FindingsMarker).value, FindingsMarker);
    }
  }

  /** Without findings the answer is the whole output, trimmed. */
  lemma ExtractResponseWithoutFindings(output: string)
    ensures !Contains(output, FindingsMarker) ==> ExtractResponse(output) == Trim(output)
  {
    FindingsLineIff(output);
  }

  /** With findings the answer is a single line. */
  lemma ExtractResponseOneLine(output: string)
    ensures Contains(output, FindingsMarker) ==> '\n' !in ExtractResponse(output)
  {
    FindingsLineIff(output);
  }
  lemma AfterFindingsLine(lines: seq<string>, i: nat)
    requires i < |lines|
    ensures (forall k | 0 <= k < |lines| :: '\n' !in lines[k]) ==> '\n' !in Trim(Join(lines[i + 1..], " "))
  {
    if forall k | 0 <= k < |lines| :: '\n' !in lines[k] {
      JoinAvoids(lines[i + 1..], " ", '\n');
      TrimAvoids(Join(lines[i + 1..], " "), '\n');
    }
  }
  /** Trimming adds no character. */
  lemma TrimAvoids(s: string, c: char)
    requires c !in s
    ensures c !in Trim(s)
  {
    var a := TrimStart(s);
    assert c !in a;
  }

  /** When the first line mentioning the findings is the output's last line, no
      line follows it and the answer is empty. */
  lemma FindingsOnLastLineGivesEmpty(output: string)
    requires FirstLineWith(Split(output, '\n'), FindingsMarker) == Some(|Split(output, '\n')| - 1)
    ensures ExtractResponse(output) == ""
  {
    var lines := Split(output, '\n');
    assert lines[|lines|..] == [];
    assert Join([], " ") == "";
  }

  /** In particular, an output of one line that holds the marker gets an empty
      answer. */
  lemma OneLineFindingsGivesEmpty(output: string)
    requires '\n' !in output && Contains(output, FindingsMarker)
    ensures ExtractResponse(output) == ""
  {
    assert Split(output, '\n') == [output];
    FindingsOnLastLineGivesEmpty(output);
  }

  // ---------------------------------------------------------------------------
  // The pending-request table

  /** What a request's promise resolves to (`{ text, source }`). */
  datatype Reply = Reply(text: string, source: string)

  const TimeoutText := "I'm processing that, but it's taking a moment. Let me get back to you."

  /** Output that is taken as the answer to the oldest pending request: it mentions
      the findings or is longer than 50 UTF-16 code units. */
  predicate Answers(output: string) {
    Contains(output, FindingsMarker) || Utf16Length(output) > 50
  }

  /** For text without astral characters the length test counts characters. */
  lemma AnswersBmp(output: string)
    requires forall k | 0 <= k < |output| :: !IsAstral(output[k])
    ensures Answers(output) <==> Contains(output, FindingsMarker) || |output| > 50
  {
    Utf16LengthBmp(output);
  }

  /** Twenty-six emoji are 52 code units long, so they answer a request. */
  lemma AstralOutputAnswers(output: string)
    requires |output| > 25 && forall k | 0 <= k < |output| :: IsAstral(output[k])
    ensures Answers(output)
  {
    Utf16LengthAstral(output);
  }

  predicate NoDuplicates(ids: seq<string>) {
    forall i, j | 0 <= i < j < |ids| :: ids[i] != ids[j]
  }

  /** `ids` without `id`, order kept: how a `Map` iterates after `delete(id)`. */
  function Without(ids: seq<string>, id: string): (r: seq<string>)
    ensures |r| <= |ids|
    ensures forall x :: x in r <==> x in ids && x != id
  {
    if ids == [] then []
    else if ids[0] == id then Without(ids[1..], id)
    else [ids[0]] + Without(ids[1..], id)
  }

  /** Deleting works piecewise, so the ids left keep their order. */
  lemma {:induction false} WithoutSplits(a: seq<string>, b: seq<string>, id: string)
    ensures Without(a + b, id) == Without(a, id) + Without(b, id)
    decreases |a|
  {
    if a == [] {
      assert a + b == b;
    } else {
      assert (a + b)[1..] == a[1..] + b;
      WithoutSplits(a[1..], b, id);
    }
  }

  lemma {:induction false} WithoutKeepsDistinct(ids: seq<string>, id: string)
    requires NoDuplicates(ids)
    ensures NoDuplicates(Without(ids, id))
  {
    if ids != [] {
      assert NoDuplicates(ids[1..]) by {
        forall i, j | 0 <= i < j < |ids[1..]| ensures ids[1..][i] != ids[1..][j] {
          assert ids[1..][i] == ids[i + 1] && ids[1..][j] == ids[j + 1];
        }
      }
      WithoutKeepsDistinct(ids[1..], id);
      assert ids[0] !in ids[1..];
    }
  }

  /** Removing the first of distinct ids leaves the rest. */
  lemma {:induction false} WithoutFirst(ids: seq<string>)
    requires ids != [] && NoDuplicates(ids)
    ensures Without(ids, ids[0]) == ids[1..]
  {
    assert ids[0] !in ids[1..];
    WithoutAbsent(ids[1..], ids[0]);
  }

  lemma {:induction false} WithoutAbsent(ids: seq<string>, id: string)
    requires id !in ids
    ensures Without(ids, id) == ids
  {
    if ids != [] {
      WithoutAbsent(ids[1..], id);
    }
  }

  /** The pending requests in `Map` iteration order, the promise whose resolver each
      id holds, and the value every promise has settled with so far. */
  datatype Pending = Pending(order: seq<string>, resolver: map<string, nat>, settled: map<nat, Reply>)
  {
    /** The ids in `order` are exactly the keys, each once. */
    ghost predicate Valid() {
      && (forall id :: id in resolver <==> id in order)
      && NoDuplicates(order)
    }
  }

  /** Resolving promise `p` with `v`; a promise that has settled keeps its value. */
  function Settle(settled: map<nat, Reply>, p: nat, v: Reply): (r: map<nat, Reply>)
    ensures p in r && (p in settled ==> r[p] == settled[p]) && (p !in settled ==> r[p] == v)
    ensures forall q | q in settled :: q in r && r[q] == settled[q]
    ensures forall q | q in r :: q in settled || q == p
  {
    if p in settled then settled else settled[p := v]
  }

  /** `pendingRequests.set(id, resolve)` with the resolver of promise `p`: a new id
      goes last; an id already present keeps its place and gets the new resolver. */
  function AfterRegister(t: Pending, id: string, p: nat): Pending {
    Pending(if id in t.resolver then t.order else t.order + [id], t.resolver[id := p], t.settled)
  }

  /** The stdout handler: output that answers resolves the oldest pending request
      with the extracted text and removes it; other output, or an empty table,
      changes nothing. */
  function AfterOutput(t: Pending, output: string): Pending {
    if t.order != [] && Answers(output) && t.order[0] in t.resolver then
      var id := t.order[0];
      Pending(Without(t.order, id), t.resolver - {id},
              Settle(t.settled, t.resolver[id], Reply(ExtractResponse(output), "voice-agent")))
    else t
  }

  /** The timer of the request `id` made with promise `p`: if `id` is still pending,
      `p` (the timer's own promise) resolves with the timeout text and `id` is removed. */
  function AfterTimeout(t: Pending, id: string, p: nat): Pending {
    if id in t.resolver then
      Pending(Without(t.order, id), t.resolver - {id}, Settle(t.settled, p, Reply(TimeoutText, "timeout")))
    else t
  }

  /** Registering keeps the table well formed, keeps the oldest request oldest and,
      on a repeated id, keeps its place. */
  lemma RegisterKeepsOrder(t: Pending, id: string, p: nat)
    requires t.Valid()
    ensures AfterRegister(t, id, p).Valid()
    ensures AfterRegister(t, id, p).resolver[id] == p
    ensures id in t.resolver ==> AfterRegister(t, id, p).order == t.order
    ensures id !in t.resolver ==> AfterRegister(t, id, p).order == t.order + [id]
    ensures t.order != [] ==> AfterRegister(t, id, p).order[0] == t.order[0]
  {
    var r := AfterRegister(t, id, p);
    if id !in t.resolver {
      forall i, j | 0 <= i < j < |r.order| ensures r.order[i] != r.order[j] {
        if j == |t.order| {
          assert r.order[i] == t.order[i];
        }
      }
    }
  }

  /** Answering output resolves exactly the oldest pending request, removing it and
      leaving the others in order; other output changes nothing. */
  lemma OnOutputResolvesOldest(t: Pending, output: string)
    requires t.Valid()
    ensures AfterOutput(t, output).Valid()
    ensures !Answers(output) || t.order == [] ==> AfterOutput(t, output) == t
    ensures Answers(output) && t.order != [] ==>
      var p := t.resolver[t.order[0]];
      && AfterOutput(t, output).order == t.order[1..]
      && AfterOutput(t, output).resolver == t.resolver - {t.order[0]}
      && (p !in t.settled ==> AfterOutput(t, output).settled[p] == Reply(ExtractResponse(output), "voice-agent"))
      && forall q | q in AfterOutput(t, output).settled :: q in t.settled || q == p
  {
    if Answers(output) && t.order != [] {
      WithoutFirst(t.order);
      assert NoDuplicates(t.order[1..]) by {
        forall i, j | 0 <= i < j < |t.order[1..]| ensures t.order[1..][i] != t.order[1..][j] {
          assert t.order[1..][i] == t.order[i + 1] && t.order[1..][j] == t.order[j + 1];
        }
      }
    }
  }

  /** A timeout for a request still pending settles its promise with the timeout
      text and removes the id; once the id is gone the timer does nothing. */
  lemma OnTimeoutSettles(t: Pending, id: string, p: nat)
    requires t.Valid()
    ensures AfterTimeout(t, id, p).Valid()
    ensures id !in AfterTimeout(t, id, p).resolver
    ensures id !in t.resolver ==> AfterTimeout(t, id, p) == t
    ensures id in t.resolver && p !in t.settled ==> AfterTimeout(t, id, p).settled[p] == Reply(TimeoutText, "timeout")
  {
    WithoutKeepsDistinct(t.order, id);
  }

  /** A request answered by the agent is not answered again by its timer. */
  lemma AnsweredRequestIgnoresTimeout(t: Pending, output: string, p: nat)
    requires t.Valid() && t.order != [] && Answers(output)
    ensures AfterTimeout(AfterOutput(t, output), t.order[0], p) == AfterOutput(t, output)
  {
  }

  /** A settled promise keeps its value through every event: a promise resolves once. */
  lemma SettledStaysSettled(t: Pending, output: string, id: string, p: nat, q: nat)
    requires q in t.settled
    ensures q in AfterRegister(t, id, p).settled && AfterRegister(t, id, p).settled[q] == t.settled[q]
    ensures q in AfterOutput(t, output).settled && AfterOutput(t, output).settled[q] == t.settled[q]
    ensures q in AfterTimeout(t, id, p).settled && AfterTimeout(t, id, p).settled[q] == t.settled[q]
  {
  }

  /** The live `pendingRequests` map; `next` numbers the next request's promise. */
  class PendingTable {
    var order: seq<string>
    var resolver: map<string, nat>
    var settled: map<nat, Reply>
    var next: nat

    function Value(): Pending
      reads this
    {
      Pending(order, resolver, settled)
    }

    /** Well formed, and every promise named so far is below `next`. */
    ghost predicate Valid()
      reads this
    {
      && Value().Valid()
      && (forall id | id in resolver :: resolver[id] < next)
      && (forall q | q in settled :: q < next)
    }

    /** `new Map()`. */
    constructor ()
      ensures Valid() && Value() == Pending([], map[], map[])
    {
      order, resolver, settled, next := [], map[], map[], 0;
    }

    /** The `new Promise` of a voice command and `pendingRequests.set(id, resolve)`;
        returns the new promise. */
    method Register(id: string) returns (p: nat)
      requires Valid()
      modifies this
      ensures Valid() && p == old(next) && next == p + 1
      ensures Value() == AfterRegister(old(Value()), id, p)
    {
      RegisterKeepsOrder(Value(), id, next);
      p := next;
      if id !in resolver {
        order := order + [id];
      }
      resolver := resolver[id := p];
      next := next + 1;
    }

    /** The stdout handler: it walks the pending requests and, if the output
        answers, resolves the first one, removes it and stops. */
    method OnOutput(output: string)
      requires Valid()
      modifies this
      ensures Valid() && next == old(next)
      ensures Value() == AfterOutput(old(Value()), output)
    {
      OnOutputResolvesOldest(Value(), output);
      var i := 0;
      while i < |order|
        invariant 0 <= i <= |order|
        invariant Valid() && Value() == old(Value()) && next == old(next)
        invariant i > 0 ==> !Answers(output)
      {
        if Answers(output) {
          var id := order[i];
          settled := Settle(settled, resolver[id], Reply(ExtractResponse(output), "voice-agent"));
          order := Without(order, id);
          resolver := resolver - {id};
          break;
        }
        i := i + 1;
      }
    }

    /** The timer of the request `id` whose promise is `p`. */
    method OnTimeout(id: string, p: nat)
      requires Valid() && p < next
      modifies this
      ensures Valid() && next == old(next)
      ensures Value() == AfterTimeout(old(Value()), id, p)
    {
      OnTimeoutSettles(Value(), id, p);
      if id in resolver {
        settled := Settle(settled, p, Reply(TimeoutText, "timeout"));
        order := Without(order, id);
        resolver := resolver - {id};
      }
    }
  }
}
