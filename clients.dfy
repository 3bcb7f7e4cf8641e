/** The subscriber registry of the event stream: `ClientManager` keeps the connected
    clients in an insertion-ordered `Set` and writes every broadcast event to each of them. */
module ClientManagement {
  import opened Registry

  /** The server-sent-events frame carrying one serialised event: `data: <json>\n\n`.
      The event is recovered by stripping the `data: ` field name and the blank line that
      ends the event. */
  function Frame(json: string): (r: string)
    ensures |r| == |json| + 8
    ensures r[..6] == "data: " && r[|r| - 2..] == "\n\n"
    ensures r[6..|r| - 2] == json
  {
    "data: " + json + "\n\n"
  }

  /** One connected subscriber, `{ id, res }`, compared by reference as a `Set` member is.
      Its response stream is abstract: the chunks written so far, whether the stream has
      ended (`res.writableEnded`), and whether a write on it throws. */
  class Client {
    const id: int
    var output: seq<string>
    const writableEnded: bool
    const writeFails: bool

    constructor (id: int, writableEnded: bool, writeFails: bool)
      ensures this.id == id && output == []
      ensures this.writableEnded == writableEnded && this.writeFails == writeFails
    {
      this.id := id;
      output := [];
      this.writableEnded := writableEnded;
      this.writeFails := writeFails;
    }

    /** `res.write(chunk)`: either throws, writing nothing, or appends the chunk. */
    method Write(chunk: string) returns (threw: bool)
      modifies this`output
      ensures threw == writeFails
      ensures output == if threw then old(output) else old(output) + [chunk]
    {
      threw := writeFails;
      if !threw {
        output := output + [chunk];
      }
    }
  }

  class ClientManager {
    var clients: seq<Client>

    /** The `Set` never holds a client twice. */
    ghost predicate Valid()
      reads this
    {
      NoDuplicates(clients)
    }

    /** The clients a broadcast would drop now: those whose stream is still open and whose
        write throws. */
    ghost function Failing(): set<Client>
      reads this
    {
      set c | c in clients && !c.writableEnded && c.writeFails
    }

    constructor ()
      ensures Valid() && clients == []
    {
      clients := [];
    }

    /** `addClient`: the set gains `c`; a client already present keeps its place. */
    method AddClient(c: Client)
      requires Valid()
      modifies this`clients
      ensures Valid()
      ensures clients == Insert(old(clients), c)
      ensures Elements(clients) == Elements(old(clients)) + {c}
    {
      InsertProperties(clients, c);
      clients := Insert(clients, c);
    }

    /** `removeClient`: the set loses `c`, the others keep their order; removing a client
        that is absent changes nothing. */
    method RemoveClient(c: Client)
      requires Valid()
      modifies this`clients
      ensures Valid()
      ensures clients == Delete(old(clients), c)
      ensures Elements(clients) == Elements(old(clients)) - {c}
      ensures c !in old(clients) ==> clients == old(clients)
    {
      DeleteProperties(clients, c);
      clients := Delete(clients, c);
    }

    /** The output of every client of the snapshot, when those before `i` have been visited. */
    ghost predicate Progress(snapshot: seq<Client>, before: seq<seq<string>>, i: nat, chunk: string)
      requires |snapshot| == |before|
      reads snapshot
    {
      forall j :: 0 <= j < |snapshot| ==>
        snapshot[j].output == if j < i && !snapshot[j].writableEnded && !snapshot[j].writeFails
                              then before[j] + [chunk]
                              else before[j]
    }

    /** The callback `broadcast` runs for the client at position `i` of its snapshot: an open
        stream is written to, and the client is removed if that write throws; an ended stream
        is left alone. The clients before `i` have been visited, those from `i` on not yet. */
    method VisitClient(c: Client, chunk: string, ghost snapshot: seq<Client>, ghost i: nat,
                       ghost failing: set<Client>, ghost before: seq<seq<string>>)
      requires NoDuplicates(snapshot) && i < |snapshot| == |before| && snapshot[i] == c
      requires c in failing <==> !c.writableEnded && c.writeFails
      requires clients == Without(snapshot[..i], failing) + snapshot[i..]
      requires Progress(snapshot, before, i, chunk)
      modifies this`clients, c`output
      ensures clients == Without(snapshot[..i + 1], failing) + snapshot[i + 1..]
      ensures Progress(snapshot, before, i + 1, chunk)
    {
      BroadcastStep(snapshot, i, failing);
      VisitedDistinct(snapshot, i, failing);
      if !c.writableEnded {
        var threw := c.Write(chunk);
        if threw {
          RemoveClient(c);
        }
      }
    }

    /** `broadcast`: visits the clients present at the start in insertion order. A client
        whose stream is open receives exactly one frame, unless the write throws, in which
        case the client is removed; a client whose stream has ended is neither written to nor
        removed. No error escapes. */
    method Broadcast<M>(message: M, serialise: M -> string)
      requires Valid()
      modifies this`clients, clients`output
      ensures Valid()
      ensures clients == Without(old(clients), old(Failing()))
      ensures Elements(clients) == Elements(old(clients)) - old(Failing())
      ensures forall c :: c in old(clients) ==>
                c.output == if !c.writableEnded && !c.writeFails
                            then old(c.output) + [Frame(serialise(message))]
                            else old(c.output)
    {
      var snapshot := clients;
      ghost var failing := Failing();
      // JSON.stringify is deterministic, so every iteration writes the same frame.
      var frame := Frame(serialise(message));
      ghost var before := seq(|snapshot|, j requires 0 <= j < |snapshot| reads snapshot => snapshot[j].output);
      var i := 0;
      while i < |snapshot|
        invariant 0 <= i <= |snapshot|
        invariant NoDuplicates(snapshot)
        invariant clients == Without(snapshot[..i], failing) + snapshot[i..]
        invariant Progress(snapshot, before, i, frame)
      {
        VisitClient(snapshot[i], frame, snapshot, i, failing, before);
        i := i + 1;
      }
      assert snapshot[..i] == snapshot;
      WithoutProperties(snapshot, failing);
      forall c | c in snapshot
        ensures c.output == if !c.writableEnded && !c.writeFails
                            then old(c.output) + [frame]
                            else old(c.output)
      {
        var j :| 0 <= j < |snapshot| && snapshot[j] == c;
        assert before[j] == old(c.output);
      }
    }
  }

  /** One iteration of the broadcast loop, on the sequence of clients: the client at `i` is
      either dropped (its write threw) or kept, and the rest of the snapshot is still ahead. */
  lemma BroadcastStep<T>(snapshot: seq<T>, i: nat, failing: set<T>)
    requires NoDuplicates(snapshot) && i < |snapshot|
    ensures snapshot[i] in failing ==>
              Delete(Without(snapshot[..i], failing) + snapshot[i..], snapshot[i])
              == Without(snapshot[..i + 1], failing) + snapshot[i + 1..]
    ensures snapshot[i] !in failing ==>
              Without(snapshot[..i], failing) + snapshot[i..]
              == Without(snapshot[..i + 1], failing) + snapshot[i + 1..]
  {
    var prefix, c, rest := snapshot[..i], snapshot[i], snapshot[i + 1..];
    assert snapshot[..i + 1] == prefix + [c];
    assert snapshot[i..] == [c] + rest;
    WithoutSnoc(prefix, c, failing);
    var kept := Without(prefix, failing);
    if c in failing {
      UniqueAt(snapshot, i);
      WithoutProperties(prefix, failing);
      assert c !in Elements(kept);
      DeleteAt(kept, c, rest);
      assert Without(snapshot[..i], failing) + snapshot[i..] == kept + [c] + rest;
      assert Without(snapshot[..i + 1], failing) + snapshot[i + 1..] == kept + rest;
    } else {
      assert kept + ([c] + rest) == (kept + [c]) + rest;
    }
  }

  /** In a duplicate-free sequence, the element at `i` occurs neither before nor after `i`. */
  lemma UniqueAt<T>(s: seq<T>, i: nat)
    requires NoDuplicates(s) && i < |s|
    ensures s[i] !in s[..i] && s[i] !in s[i + 1..]
  {
    forall k | 0 <= k < i
      ensures s[..i][k] != s[i]
    {
      assert s[..i][k] == s[k];
    }
    var rest := s[i + 1..];
    forall k | 0 <= k < |rest|
      ensures rest[k] != s[i]
    {
      assert rest[k] == s[i + 1 + k];
    }
  }

  /** Part way through a broadcast the registry is still duplicate-free. */
  lemma VisitedDistinct<T>(snapshot: seq<T>, i: nat, failing: set<T>)
    requires NoDuplicates(snapshot) && i <= |snapshot|
    ensures NoDuplicates(Without(snapshot[..i], failing) + snapshot[i..])
  {
    var prefix, rest := snapshot[..i], snapshot[i..];
    WithoutProperties(prefix, failing);
    var kept := Without(prefix, failing);
    forall a, b | 0 <= a < b < |kept + rest| ensures (kept + rest)[a] != (kept + rest)[b] {
      if b < |kept| {
      } else if a >= |kept| {
        assert (kept + rest)[a] == snapshot[i + a - |kept|];
        assert (kept + rest)[b] == snapshot[i + b - |kept|];
      } else {
        assert (kept + rest)[a] in Elements(kept);
        assert (kept + rest)[a] in prefix;
        assert (kept + rest)[b] == snapshot[i + b - |kept|];
      }
    }
  }
}
