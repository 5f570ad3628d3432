/** The reference meaning of a blueprint: a plain recursive interpreter with bounded
    do-while loops, fed with the outputs of the steps that run. */
module Interpreter {
  import opened SagaTypes
  import opened SagaSpec

  datatype Verdict = Going | Waiting | Stuck

  /** `trace` lists the steps passed so far and whether each one ran or was skipped. */
  datatype St = St(ctx: Context, pos: nat, feed: seq<Entry>, trace: seq<(Label, StepStatus)>, verdict: Verdict)

  /** Skip the step when its gate says so, otherwise take the next output; wait if there
      is none yet. */
  function InterpStep(r: Rules, lab: Label, st: St): St {
    if st.verdict != Going then st
    else if lab.spec.hasWhen && r.when(st.ctx, st.pos, lab) == WhenFalse then
      St(if lab.pass.Some? then SetStep(st.ctx, lab.spec.id, BLANK) else st.ctx,
         st.pos + 1, st.feed, st.trace + [(lab, Skipped)], Going)
    else if st.feed == [] then st.(verdict := Waiting)
    else
      St(SetStep(st.ctx, lab.spec.id, st.feed[0]), st.pos + 1, st.feed[1..], st.trace + [(lab, Completed)], Going)
  }

  function InterpSteps(r: Rules, labs: seq<Label>, st: St): St
    decreases |labs|
  {
    if labs == [] then st else InterpSteps(r, labs[1..], InterpStep(r, labs[0], st))
  }

  /** do { body } while (!until), at most `max` times. */
  function InterpPass(r: Rules, loop: Loop, k: nat, st: St): St
    decreases if k <= loop.max then loop.max - k else 0, 1
  {
    Again(r, loop, k, InterpSteps(r, Annotate(loop.body, Some(Pass(loop.id, k))), st))
  }

  function Again(r: Rules, loop: Loop, k: nat, st: St): St
    decreases if k <= loop.max then loop.max - k else 0, 0
  {
    if st.verdict != Going then st
    else match r.until(st.ctx, loop.id, k)
      case UntilTrue => st.(ctx := SetLoop(st.ctx, loop.id, k, loop.max, LoopExited))
      case UntilError(_) => st.(ctx := SetLoop(st.ctx, loop.id, k, loop.max, LoopExhausted), verdict := Stuck)
      case UntilFalse =>
        if k >= loop.max then st.(ctx := SetLoop(st.ctx, loop.id, k, loop.max, LoopExhausted), verdict := Stuck)
        else InterpPass(r, loop, k + 1, st.(ctx := SetLoop(st.ctx, loop.id, k + 1, loop.max, LoopRunning)))
  }

  function Interp(r: Rules, bp: seq<Top>, st: St): St
    decreases |bp|
  {
    if bp == [] || st.verdict != Going then st
    else match bp[0]
      case Exec(sp) => Interp(r, bp[1..], InterpStep(r, Label(sp, None), st))
      case Block(loop) => Interp(r, bp[1..], InterpPass(r, loop, 1, st))
  }

  /** Interpret a whole blueprint from saga start on the outputs `feed`. */
  function Replay(r: Rules, bp: seq<Top>, feed: seq<Entry>): St {
    Interp(r, bp, St(Context(Shells(bp), LoopShells(bp)), 0, feed, [], Going))
  }

  /** The steps a do-while interpreter has unrolled, read off the loop counters. */
  function Passes(loop: Loop, n: nat): seq<Label> {
    if n == 0 then [] else Passes(loop, n - 1) + Annotate(loop.body, Some(Pass(loop.id, n)))
  }

  function Unroll(bp: seq<Top>, loops: map<string, LoopCtx>): seq<Label>
    decreases |bp|
  {
    if bp == [] then []
    else match bp[0]
      case Exec(sp) => [Label(sp, None)] + Unroll(bp[1..], loops)
      case Block(l) =>
        if l.id !in loops then []
        else
          var rest := if loops[l.id].status == LoopExited then Unroll(bp[1..], loops) else [];
          Passes(l, loops[l.id].iteration) + rest
  }
}
