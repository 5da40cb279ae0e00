/** The per-message environment (`PipelineContext.Enviorment`): a string-keyed
    dictionary the stages of one message share. Stage writes are modelled as
    data so that "what a stage sees" can be stated about them. */
module Environment {
  import opened Base

  /** Dictionary contents; the stored objects are abstracted to strings. */
  type Env = map<string, string>

  /** The value a stage stores: a constant, or the `MessageId` of the
      message the context belongs to. */
  datatype Operand = Literal(text: string) | OwnMessageId

  /** One indexer assignment `Enviorment[key] = value`. */
  datatype Write = Write(key: string, value: Operand)

  function Eval(op: Operand, m: Message): string
  {
    match op
    case Literal(t) => t
    case OwnMessageId => m.messageId
  }

  /** The keys a sequence of writes touches. */
  function KeysWritten(ws: seq<Write>): set<string>
  {
    set i | 0 <= i < |ws| :: ws[i].key
  }

  /** The dictionary after performing the writes `ws` in order. Writing never
      removes a key, and exactly the written keys are added. */
  function Apply(env: Env, ws: seq<Write>, m: Message): (r: Env)
    ensures r.Keys == env.Keys + KeysWritten(ws)
    decreases |ws|
  {
    if |ws| == 0 then env
    else
      var r := Apply(env[ws[0].key := Eval(ws[0].value, m)], ws[1..], m);
      assert KeysWritten(ws) == {ws[0].key} + KeysWritten(ws[1..]) by {
        forall k | k in KeysWritten(ws) ensures k in {ws[0].key} + KeysWritten(ws[1..]) {
          var i :| 0 <= i < |ws| && ws[i].key == k;
          if i > 0 { assert ws[1..][i - 1].key == k; }
        }
      }
      r
  }

  /** Reference definition of the dictionary's indexer semantics: the operand
      of the last write to `k`, searched from the end. */
  function LastWrite(ws: seq<Write>, k: string): Option<Operand>
    decreases |ws|
  {
    if |ws| == 0 then None
    else if ws[|ws| - 1].key == k then Some(ws[|ws| - 1].value)
    else LastWrite(ws[..|ws| - 1], k)
  }

  /** Performing one more write is an update of the dictionary. */
  lemma {:induction false} ApplySnoc(env: Env, ws: seq<Write>, w: Write, m: Message)
    ensures Apply(env, ws + [w], m) == Apply(env, ws, m)[w.key := Eval(w.value, m)]
    decreases |ws|
  {
    if |ws| == 0 {
      assert ws + [w] == [w];
      assert [w][1..] == [];
    } else {
      assert (ws + [w])[0] == ws[0];
      assert (ws + [w])[1..] == ws[1..] + [w];
      ApplySnoc(env[ws[0].key := Eval(ws[0].value, m)], ws[1..], w, m);
    }
  }

  /** Last write wins: after the writes, a key holds the value of its last
      write, and a key nobody wrote keeps its earlier value (or stays absent). */
  lemma {:induction false} LastWriteWins(env: Env, ws: seq<Write>, m: Message, k: string)
    ensures LastWrite(ws, k).Some? ==>
              k in Apply(env, ws, m) && Apply(env, ws, m)[k] == Eval(LastWrite(ws, k).value, m)
    ensures LastWrite(ws, k).None? ==>
              (k in Apply(env, ws, m) <==> k in env) &&
              (k in env ==> Apply(env, ws, m)[k] == env[k])
    decreases |ws|
  {
    if |ws| > 0 {
      var init, w := ws[..|ws| - 1], ws[|ws| - 1];
      assert ws == init + [w];
      ApplySnoc(env, init, w, m);
      LastWriteWins(env, init, m, k);
    }
  }
}
