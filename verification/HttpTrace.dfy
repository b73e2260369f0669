/** The mark variables, and callback traces up to the joining of adjacent fragments. */
module HttpTrace {
  import opened Wrappers
  import opened HttpTypes
  import opened HttpSwitch

  /** The mark variables that are set, each with the index it points at. */
  type Marks = map<Kind, nat>

  /** The marks http_parser_execute sets before its first byte. */
  function InitialMarks(s: State): Marks {
    match Live(s)
    case Some(k) => if k == Body then map[] else map[k := 0]
    case None => map[]
  }

  /** The one data field that can be open in a state. */
  function Live(s: State): Option<Kind> {
    match s
    case ResStatus => Some(Status)
    case HeaderField => Some(Field)
    case HeaderValue => Some(Value)
    case ReqSchema => Some(Url)
    case ReqSchemaSlash => Some(Url)
    case ReqSchemaSlashSlash => Some(Url)
    case ReqServerStart => Some(Url)
    case ReqServer => Some(Url)
    case ReqServerWithAt => Some(Url)
    case ReqPath => Some(Url)
    case ReqQueryStringStart => Some(Url)
    case ReqQueryString => Some(Url)
    case ReqFragmentStart => Some(Url)
    case ReqFragment => Some(Url)
    case ChunkData => Some(Body)
    case ChunkDataAlmostDone => Some(Body)
    case BodyIdentity => Some(Body)
    case BodyIdentityEof => Some(Body)
    case _ => None
  }

  predicate Within(marks: Marks, n: nat) { forall k <- marks :: marks[k] <= n }

  /** What one action does to the marks and which callback it makes, at index `i` of `data`. */
  function PlayOne(act: Action, marks: Marks, data: seq<octet>, i: nat): (r: (Marks, seq<Event>))
    requires i < |data| && Within(marks, i)
    ensures Within(r.0, i)
  {
    match act
    case Call(n) => (marks, [Notify(n)])
    case Mark(k) => (if k in marks then marks else marks[k := i], [])
    case Flush(k) => if k in marks then (marks - {k}, [Data(k, data[marks[k]..i])]) else (marks, [])
    case FlushThrough(k) => if k in marks then (marks - {k}, [Data(k, data[marks[k]..i + 1])]) else (marks, [])
  }

  function Play(acts: seq<Action>, marks: Marks, data: seq<octet>, i: nat): (r: (Marks, seq<Event>))
    requires i < |data| && Within(marks, i)
    ensures Within(r.0, i)
  {
    if acts == [] then (marks, [])
    else
      var first := PlayOne(acts[0], marks, data, i);
      var rest := Play(acts[1..], first.0, data, i);
      (rest.0, first.1 + rest.1)
  }

  lemma {:induction false} PlayConcat(a: seq<Action>, b: seq<Action>, marks: Marks, data: seq<octet>, i: nat)
    requires i < |data| && Within(marks, i)
    ensures var x := Play(a, marks, data, i);
            var y := Play(b, x.0, data, i);
            Play(a + b, marks, data, i) == (y.0, x.1 + y.1)
  {
    hide PlayOne, Within;
    var x := Play(a, marks, data, i);
    var y := Play(b, x.0, data, i);
    if a == [] {
      assert a + b == b && [] + y.1 == y.1;
    } else {
      var first := PlayOne(a[0], marks, data, i);
      assert (a + b)[1..] == a[1..] + b;
      PlayConcat(a[1..], b, first.0, data, i);
      var rest := Play(a[1..], first.0, data, i);
      assert first.1 + (rest.1 + y.1) == (first.1 + rest.1) + y.1;
    }
  }

  /** The callbacks for the marks still set when the buffer ends, in the source's order. */
  function Leftover(marks: Marks, data: seq<octet>): seq<Event>
    requires Within(marks, |data|)
  {
    LeftoverOf(Field, marks, data) + LeftoverOf(Value, marks, data) + LeftoverOf(Url, marks, data)
    + LeftoverOf(Body, marks, data) + LeftoverOf(Status, marks, data)
  }

  function LeftoverOf(k: Kind, marks: Marks, data: seq<octet>): seq<Event>
    requires Within(marks, |data|)
  {
    if k in marks then [Data(k, data[marks[k]..])] else []
  }

  // Traces with adjacent same-kind fragments joined.

  function Push(t: seq<Event>, e: Event): seq<Event> {
    if e.Data? && t != [] && t[|t| - 1].Data? && t[|t| - 1].kind == e.kind
    then t[..|t| - 1] + [Data(e.kind, t[|t| - 1].bytes + e.bytes)]
    else t + [e]
  }

  function PushAll(t: seq<Event>, es: seq<Event>): seq<Event>
    decreases es
  {
    if es == [] then t else PushAll(Push(t, es[0]), es[1..])
  }

  function Join(es: seq<Event>): seq<Event> { PushAll([], es) }

  lemma {:induction false} PushAllConcat(t: seq<Event>, a: seq<Event>, b: seq<Event>)
    ensures PushAll(t, a + b) == PushAll(PushAll(t, a), b)
    decreases a
  {
    if a == [] {
      assert a + b == b;
    } else {
      assert (a + b)[1..] == a[1..] + b;
      PushAllConcat(Push(t, a[0]), a[1..], b);
    }
  }

  /** Two fragments in a row count as one. */
  lemma PushTwice(t: seq<Event>, k: Kind, x: seq<octet>, y: seq<octet>)
    ensures Push(Push(t, Data(k, x)), Data(k, y)) == Push(t, Data(k, x + y))
  {
    var u := Push(t, Data(k, x));
    if t != [] && t[|t| - 1].Data? && t[|t| - 1].kind == k {
      assert t[|t| - 1].bytes + x + y == t[|t| - 1].bytes + (x + y);
    }
  }
}
