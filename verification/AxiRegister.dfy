/** The registers that can be put into each AXI channel: a skid buffer, which holds
    two words and never inserts a bubble, and a simple register, which holds one. */
module AxiRegister {
  import opened Common

  datatype Kind = Simple | Skid

  /** ready towards the source, valid and data towards the sink, and the temp word. */
  datatype State<T> = State(ready: bool, valid: bool, data: T, tempValid: bool, temp: T)

  /** valid and data from the source, ready from the sink. */
  datatype Inputs<T> = Inputs(valid: bool, data: T, ready: bool)

  function SkidNext<T>(s: State<T>, i: Inputs<T>): State<T> {
    var ready := i.ready || (!s.tempValid && (!s.valid || !i.valid));
    if s.ready then
      if i.ready || !s.valid then s.(ready := ready, valid := i.valid, data := i.data)
      else s.(ready := ready, tempValid := i.valid, temp := i.data)
    else if i.ready then
      s.(ready := ready, valid := s.tempValid, data := s.temp, tempValid := false)
    else
      s.(ready := ready)
  }

  function SimpleNext<T>(s: State<T>, i: Inputs<T>): State<T> {
    var valid := if s.ready then i.valid else s.valid && !i.ready;
    s.(ready := !valid, valid := valid, data := if s.ready then i.data else s.data)
  }

  function Next<T>(kind: Kind, s: State<T>, i: Inputs<T>): State<T> {
    match kind
    case Simple => SimpleNext(s, i)
    case Skid => SkidNext(s, i)
  }

  /** A register that is not ready is full, or has just been reset. */
  predicate Sound<T>(kind: Kind, s: State<T>) {
    match kind
    case Simple => !s.tempValid && (s.ready ==> !s.valid)
    case Skid => (s.tempValid ==> s.valid && !s.ready) && (s.valid && !s.tempValid ==> s.ready)
  }

  /** The number of words the register holds. */
  function Slots(kind: Kind): (n: nat)
    ensures n == if kind == Skid then 2 else 1
  {
    if kind == Skid then 2 else 1
  }

  /** The words in the register, oldest first. */
  function Contents<T>(s: State<T>): (q: seq<T>)
    ensures |q| <= 2
  {
    (if s.valid then [s.data] else []) + (if s.tempValid then [s.temp] else [])
  }

  predicate Taken<T>(s: State<T>, i: Inputs<T>) {
    s.ready && i.valid
  }

  predicate Given<T>(s: State<T>, i: Inputs<T>) {
    s.valid && i.ready
  }

  /** The register is a queue: a word handed over on the sink side is the oldest and
      leaves, a word taken on the source side joins at the end. A word offered stays
      as it is until it is handed over. After every clock the register is ready
      exactly if it has room; so the skid buffer is whenever the sink was. */
  lemma RegisterIsQueue<T>(kind: Kind, s: State<T>, i: Inputs<T>)
    requires Sound(kind, s)
    ensures Sound(kind, Next(kind, s, i))
    ensures s.valid ==> Contents(s)[0] == s.data
    ensures s.valid <==> Contents(s) != []
    ensures Contents(Next(kind, s, i))
            == (if Given(s, i) then Contents(s)[1..] else Contents(s)) + (if Taken(s, i) then [i.data] else [])
    ensures s.valid && !i.ready ==> Next(kind, s, i).valid && Next(kind, s, i).data == s.data
    ensures |Contents(s)| <= Slots(kind)
    ensures Next(kind, s, i).ready <==> |Contents(Next(kind, s, i))| < Slots(kind)
    ensures kind == Skid && i.ready ==> Next(kind, s, i).ready
  {
  }

  /** The words taken and handed over in the first n clocks. */
  function Run<T>(kind: Kind, s: State<T>, inputs: seq<Inputs<T>>, n: nat): (State<T>, seq<T>, seq<T>)
    requires n <= |inputs|
  {
    if n == 0 then (s, [], [])
    else
      var (before, taken, given) := Run(kind, s, inputs, n - 1);
      var i := inputs[n - 1];
      (Next(kind, before, i),
       taken + (if Taken(before, i) then [i.data] else []),
       given + (if Given(before, i) then [before.data] else []))
  }

  /** No loss, duplication or reordering over any run from reset, and from the first
      clock on the source is held off exactly while all places are taken. */
  lemma {:induction false} RunConserves<T>(kind: Kind, s: State<T>, inputs: seq<Inputs<T>>, n: nat)
    requires n <= |inputs| && Sound(kind, s) && Contents(s) == []
    ensures
      var (after, taken, given) := Run(kind, s, inputs, n);
      && Sound(kind, after) && taken == given + Contents(after)
      && (n > 0 ==> (after.ready <==> |Contents(after)| < Slots(kind)))
  {
    if n > 0 {
      RunConserves(kind, s, inputs, n - 1);
      var (before, taken, given) := Run(kind, s, inputs, n - 1);
      var i := inputs[n - 1];
      RegisterIsQueue(kind, before, i);
      hide Next, Sound, Contents;
      if Given(before, i) {
        assert given + Contents(before) == given + [before.data] + Contents(before)[1..];
      }
    }
  }

  /** Ahead of a sink that never takes a word the register fills all its places,
      one word a clock, and hands over none. */
  lemma {:induction false} FillsAhead<T>(kind: Kind, s: State<T>, inputs: seq<Inputs<T>>, n: nat)
    requires n <= |inputs| && Sound(kind, s) && Contents(s) == []
    requires forall k :: 0 <= k < n ==> inputs[k].valid && !inputs[k].ready
    requires n > Slots(kind)
    ensures
      var (after, taken, given) := Run(kind, s, inputs, n);
      |Contents(after)| == Slots(kind) && !after.ready && given == []
    decreases n
  {
    hide Next;
    if n > Slots(kind) + 1 {
      RunConserves(kind, s, inputs, n - 1);
      FillsAhead(kind, s, inputs, n - 1);
      var (before, taken, given) := Run(kind, s, inputs, n - 1);
      RegisterIsQueue(kind, before, inputs[n - 1]);
    } else {
      FirstFill(kind, s, inputs, n);
    }
  }

  lemma {:induction false} FirstFill<T>(kind: Kind, s: State<T>, inputs: seq<Inputs<T>>, n: nat)
    requires 0 < n <= |inputs| && n <= Slots(kind) + 1 && Sound(kind, s) && Contents(s) == []
    requires forall k :: 0 <= k < n ==> inputs[k].valid && !inputs[k].ready
    ensures
      var (after, taken, given) := Run(kind, s, inputs, n);
      && Sound(kind, after) && given == []
      && |Contents(after)| >= n - 1 && (after.ready <==> |Contents(after)| < Slots(kind))
    decreases n
  {
    hide Next;
    if n > 1 {
      FirstFill(kind, s, inputs, n - 1);
      var (before, taken, given) := Run(kind, s, inputs, n - 1);
      RegisterIsQueue(kind, before, inputs[n - 1]);
    } else {
      assert Run(kind, s, inputs, 0) == (s, [], []);
      RegisterIsQueue(kind, s, inputs[0]);
    }
  }

  class Register<T> {
    const kind: Kind
    var ready: bool
    var valid: bool
    var data: T
    var tempValid: bool
    var temp: T

    ghost function Abs(): State<T>
      reads this
    {
      State(ready, valid, data, tempValid, temp)
    }

    ghost predicate Valid()
      reads this
    {
      Sound(kind, Abs())
    }

    constructor (kind: Kind, idle: T)
      ensures Valid() && this.kind == kind && Contents(Abs()) == [] && !ready
    {
      this.kind := kind;
      ready, valid, data, tempValid, temp := false, false, idle, false, idle;
    }

    method Clock(sValid: bool, sData: T, mReady: bool)
      requires Valid()
      modifies this
      ensures Valid()
      ensures Abs() == Next(kind, old(Abs()), Inputs(sValid, sData, mReady))
      ensures ready <==> |Contents(Abs())| < Slots(kind)
    {
      RegisterIsQueue(kind, Abs(), Inputs(sValid, sData, mReady));
      var validNext, tempValidNext := valid, tempValid;
      var inputToOutput, inputToTemp, tempToOutput := false, false, false;
      var readyEarly;
      if kind == Skid {
        readyEarly := mReady || (!tempValid && (!valid || !sValid));
        if ready {
          if mReady || !valid {
            validNext, inputToOutput := sValid, true;
          } else {
            tempValidNext, inputToTemp := sValid, true;
          }
        } else if mReady {
          validNext, tempValidNext, tempToOutput := tempValid, false, true;
        }
      } else {
        if ready {
          validNext, inputToOutput := sValid, true;
        } else if mReady {
          validNext := false;
        }
        readyEarly := !validNext;
      }
      if inputToOutput {
        data := sData;
      } else if tempToOutput {
        data := temp;
      }
      if inputToTemp {
        temp := sData;
      }
      ready, valid, tempValid := readyEarly, validNext, tempValidNext;
    }
  }
}
