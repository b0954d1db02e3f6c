/** The playback fields of a call and the lock-held blocks that change them. */
module Playback {
  import opened Primitives

  datatype HangupReason = BySystem | ByRefer
  datatype Handle = Handle(playId: Option<string>, ssrc: nat)
  datatype Arm = Arm(ssrc: nat, reason: HangupReason)

  datatype CallState = CallState(
    tts: Option<Handle>, hangup: Option<Arm>, wait: Option<nat>, moh: Option<string>, playId: Option<string>)

  const NEW_CALL: CallState := CallState(None, None, None, None, None)

  /** What the end of a track leads to. */
  datatype EndOutcome = Stale | LoopMoh(path: string) | HangUp(reason: HangupReason) | Finished

  // ---------- the blocks, as functions ----------

  /** `do_tts`, first block: which SSRC to use, and whether a running playback of another
      id must be interrupted. */
  function Pick(c: CallState, playId: Option<string>, wait: Option<nat>, drawn: nat): (CallState, nat, bool) {
    var interrupt := c.tts.Some? && playId.Some? && c.playId != playId;
    (c.(wait := wait, playId := playId),
     if c.tts.Some? && !interrupt then c.tts.value.ssrc else drawn,
     interrupt)
  }

  function Interrupted(c: CallState): CallState {
    c.(tts := None, moh := None, hangup := None)
  }

  /** `do_tts`, after a possible interrupt. */
  function Armed(c: CallState, auto: bool, picked: nat, interrupted: bool): CallState {
    c.(hangup := if auto then Some(Arm(picked, BySystem))
                 else if c.tts.Some? && !interrupted then c.hangup
                 else None)
  }

  function Installed(c: CallState, handle: Handle): CallState {
    c.(tts := Some(handle))
  }

  function Played(c: CallState, ssrc: nat, auto: bool, wait: Option<nat>): CallState {
    c.(tts := None, hangup := if auto then Some(Arm(ssrc, BySystem)) else None, wait := wait)
  }

  function Referred(c: CallState, ssrc: nat, auto: bool): CallState {
    c.(hangup := if auto then Some(Arm(ssrc, ByRefer)) else None)
  }

  function Shown(c: CallState, playId: Option<string>): CallState {
    c.(playId := playId)
  }

  function Ended(c: CallState, playId: Option<string>, ssrc: nat): (CallState, EndOutcome) {
    if playId != c.playId then (c, Stale)
    else
      (c.(playId := None, wait := None),
       if c.moh.Some? then LoopMoh(c.moh.value)
       else if c.hangup.Some? && c.hangup.value.ssrc == ssrc then HangUp(c.hangup.value.reason)
       else Finished)
  }

  // ---------- the object ----------

  class ActiveCall {
    var ttsHandle: Option<Handle>
    var autoHangup: Option<Arm>
    var waitInputTimeout: Option<nat>
    var moh: Option<string>
    var currentPlayId: Option<string>

    ghost function View(): CallState
      reads this
    {
      CallState(ttsHandle, autoHangup, waitInputTimeout, moh, currentPlayId)
    }

    constructor ()
      ensures View() == NEW_CALL
    {
      ttsHandle, autoHangup, waitInputTimeout, moh, currentPlayId := None, None, None, None, None;
    }

    method TtsPick(playId: Option<string>, wait: Option<nat>, drawn: nat) returns (picked: nat, interrupt: bool)
      modifies this`waitInputTimeout, this`currentPlayId
      ensures (View(), picked, interrupt) == Pick(old(View()), playId, wait, drawn)
    {
      match ttsHandle {
        case Some(handle) =>
          if playId.Some? && currentPlayId != playId {
            picked, interrupt := drawn, true;
          } else {
            picked, interrupt := handle.ssrc, false;
          }
        case None =>
          picked, interrupt := drawn, false;
      }
      waitInputTimeout := wait;
      currentPlayId := playId;
    }

    method DoInterrupt()
      modifies this`ttsHandle, this`moh, this`autoHangup
      ensures View() == Interrupted(old(View()))
    {
      ttsHandle := None;
      moh := None;
      autoHangup := None;
    }

    method TtsArm(auto: bool, picked: nat, interrupted: bool)
      modifies this`autoHangup
      ensures View() == Armed(old(View()), auto, picked, interrupted)
    {
      if auto {
        autoHangup := Some(Arm(picked, BySystem));
      } else if !(ttsHandle.Some? && !interrupted) {
        autoHangup := None;
      }
    }

    /** `try_send`: an open channel of the same play id takes the command. */
    method TrySend(playId: Option<string>, open: bool) returns (sent: bool)
      ensures sent <==> View().tts.Some? && View().tts.value.playId == playId && open
    {
      sent := ttsHandle.Some? && ttsHandle.value.playId == playId && open;
    }

    method TtsInstall(handle: Handle)
      modifies this`ttsHandle
      ensures View() == Installed(old(View()), handle)
    {
      ttsHandle := Some(handle);
    }

    method DoPlay(ssrc: nat, auto: bool, wait: Option<nat>)
      modifies this`ttsHandle, this`autoHangup, this`waitInputTimeout
      ensures View() == Played(old(View()), ssrc, auto, wait)
    {
      ttsHandle := None;
      autoHangup := if auto then Some(Arm(ssrc, BySystem)) else None;
      waitInputTimeout := wait;
    }

    method ReferArm(ssrc: nat, auto: bool)
      modifies this`autoHangup
      ensures View() == Referred(old(View()), ssrc, auto)
    {
      if auto {
        autoHangup := Some(Arm(ssrc, ByRefer));
      } else {
        autoHangup := None;
      }
    }

    method UpdateTrack(playId: Option<string>)
      modifies this`currentPlayId
      ensures View() == Shown(old(View()), playId)
    {
      currentPlayId := playId;
    }

    method TrackEnd(playId: Option<string>, ssrc: nat) returns (outcome: EndOutcome)
      modifies this`currentPlayId, this`waitInputTimeout
      ensures (View(), outcome) == Ended(old(View()), playId, ssrc)
    {
      if playId != currentPlayId {
        return Stale;
      }
      currentPlayId := None;
      var (path, armed) := (moh, autoHangup);
      waitInputTimeout := None;
      if path.Some? {
        return LoopMoh(path.value);
      }
      if armed.Some? {
        if armed.value.ssrc == ssrc {
          return HangUp(armed.value.reason);
        }
      }
      return Finished;
    }
  }
}

/** The command loop and the event loop of one call, interleaved at every await point. */
module PlaybackRuns {
  import opened Primitives
  import opened Playback

  /** A track that was started on the server side. */
  datatype Track = Track(playId: Option<string>, ssrc: nat)

  /** Where the command loop stands inside a command. `last` tells whether a speech ends its stream, `tookOver` whether
      it goes on under the SSRC of the running handle; `request` is the position of the command's own mark in the log;
      `sure` tells whether starting the track cannot fail. */
  datatype Command =
    | Ready
    | TtsClear(playId: Option<string>, auto: bool, last: bool, picked: nat)
    | TtsArm(playId: Option<string>, auto: bool, last: bool, picked: nat, interrupted: bool, tookOver: bool)
    | TtsSend(playId: Option<string>, picked: nat, request: nat)
    | TtsCreate(playId: Option<string>, picked: nat, request: nat)
    | Showing(track: Track, request: nat, sure: bool)
    | Starting(track: Track, request: nat, sure: bool)
    | ReferArm(auto: bool)
    | Referring(ssrc: nat, request: nat, music: Option<Track>)

  /** What happened, in order. A request is handed over to a track when the running handle takes its text or when its
      own track is started; it is abandoned when its set-up fails. */
  datatype Mark =
    | WasInterrupted
    | PlayStarted(ssrc: nat, auto: bool)
    | ReferStarted(ssrc: nat, auto: bool)
    | Spoken(ssrc: nat, auto: bool, tookOver: bool, last: bool)
    | HandedOver(request: nat, track: nat)
    | Abandoned(request: nat)
    | HungUp(track: nat)

  /** `drawn` counts the SSRCs drawn so far, so each draw is fresh; `reused` tells whether a
      synthesis track was ever re-created under an SSRC that a track already had. */
  datatype World = World(
    call: CallState, command: Command, looping: Option<string>, tracks: seq<Track>, drawn: nat, reused: bool,
    log: seq<Mark>)

  const START: World := World(NEW_CALL, Ready, None, [], 0, false, [])

  datatype Action =
    | StartTts(playId: Option<string>, auto: bool, last: bool, wait: Option<nat>)
    | StartPlay(playId: Option<string>, auto: bool, wait: Option<nat>)
    | StartRefer(auto: bool)
    | StepCommand(ok: bool)       // the running command takes its next step; ok: its send or set-up succeeds
    | ShowMoh(path: string)       // music on hold while a refer waits: its play id is written
    | StartMoh                    // and then its track is started
    | Interrupt                   // an interrupt event
    | End(track: nat)             // a track-end event
    | StepEvent                   // the event loop restarts music on hold

  predicate Used(tracks: seq<Track>, ssrc: nat) {
    exists g :: 0 <= g < |tracks| && tracks[g].ssrc == ssrc
  }

  /** The newest track under an SSRC. */
  function Newest(tracks: seq<Track>, ssrc: nat): (g: nat)
    ensures Used(tracks, ssrc) ==> g < |tracks| && tracks[g].ssrc == ssrc
    ensures forall h :: g < h < |tracks| ==> tracks[h].ssrc != ssrc
  {
    if tracks == [] then 0
    else if tracks[|tracks| - 1].ssrc == ssrc then |tracks| - 1
    else Newest(tracks[..|tracks| - 1], ssrc)
  }

  function Advance(w: World, ok: bool): World {
    match w.command
    case Ready => w
    case TtsClear(playId, auto, last, picked) =>
      w.(call := Interrupted(w.call), command := TtsArm(playId, auto, last, picked, true, false),
         log := w.log + [WasInterrupted])
    case TtsArm(playId, auto, last, picked, interrupted, tookOver) =>
      w.(call := Armed(w.call, auto, picked, interrupted), command := TtsSend(playId, picked, |w.log|),
         log := w.log + [Spoken(picked, auto, tookOver, last)])
    case TtsSend(playId, picked, request) =>
      if w.call.tts.Some? && w.call.tts.value.playId == playId && ok
      then w.(command := Ready, log := w.log + [HandedOver(request, Newest(w.tracks, w.call.tts.value.ssrc))])
      else w.(command := TtsCreate(playId, picked, request), reused := w.reused || Used(w.tracks, picked))
    case TtsCreate(playId, picked, request) =>
      if ok
      then w.(call := Installed(w.call, Handle(playId, picked)),
              command := Showing(Track(playId, picked), request, true))
      else w.(command := Ready, log := w.log + [Abandoned(request)])
    case Showing(track, request, sure) =>
      w.(call := Shown(w.call, track.playId), command := Starting(track, request, sure))
    case Starting(track, request, sure) =>
      if ok || sure
      then w.(command := Ready, tracks := w.tracks + [track], log := w.log + [HandedOver(request, |w.tracks|)])
      else w.(command := Ready, log := w.log + [Abandoned(request)])
    case ReferArm(auto) =>
      w.(call := Referred(w.call, w.drawn, auto), command := Referring(w.drawn, |w.log|, None), drawn := w.drawn + 1,
         log := w.log + [ReferStarted(w.drawn, auto)])
    case Referring(ssrc, request, music) =>
      if ok then w.(call := w.call.(moh := None), command := Showing(Track(None, ssrc), request, false))
      else w.(call := w.call.(moh := None), command := Ready, log := w.log + [Abandoned(request)])
  }

  function Apply(w: World, a: Action): World {
    match a
    case StartTts(playId, auto, last, wait) =>
      if !w.command.Ready? then w
      else
        var (call, picked, interrupt) := Pick(w.call, playId, wait, w.drawn);
        w.(call := call, drawn := w.drawn + 1,
           command := if interrupt then TtsClear(playId, auto, last, picked)
                      else TtsArm(playId, auto, last, picked, false, w.call.tts.Some?))
    case StartPlay(playId, auto, wait) =>
      if !w.command.Ready? then w
      else
        w.(call := Played(w.call, w.drawn, auto, wait), drawn := w.drawn + 1,
           command := Showing(Track(playId, w.drawn), |w.log|, true), log := w.log + [PlayStarted(w.drawn, auto)])
    case StartRefer(auto) =>
      if !w.command.Ready? then w
      else w.(call := Interrupted(w.call), command := ReferArm(auto), log := w.log + [WasInterrupted])
    case StepCommand(ok) => Advance(w, ok)
    case ShowMoh(path) =>
      if !w.command.Referring? || w.command.music.Some? then w
      else w.(call := Shown(w.call, Some(path)), command := w.command.(music := Some(Track(Some(path), w.drawn))),
              drawn := w.drawn + 1)
    case StartMoh =>
      if !w.command.Referring? || w.command.music.None? then w
      else w.(command := w.command.(music := None), tracks := w.tracks + [w.command.music.value])
    case Interrupt =>
      if w.looping.Some? then w else w.(call := Interrupted(w.call), log := w.log + [WasInterrupted])
    case End(g) =>
      if g >= |w.tracks| || w.looping.Some? then w
      else
        var (call, outcome) := Ended(w.call, w.tracks[g].playId, w.tracks[g].ssrc);
        w.(call := call,
           looping := if outcome.LoopMoh? then Some(outcome.path) else None,
           log := if outcome.HangUp? then w.log + [HungUp(g)] else w.log)
    case StepEvent =>
      if w.looping.None? then w
      else w.(call := Shown(w.call, w.looping), looping := None,
              tracks := w.tracks + [Track(w.looping, w.drawn)], drawn := w.drawn + 1)
  }

  function Run(actions: seq<Action>): World {
    if actions == [] then START
    else Apply(Run(actions[..|actions| - 1]), actions[|actions| - 1])
  }

  // ---------- handle and hangup agree ----------

  /** The synthesis handle and the armed hangup never name different playbacks. */
  predicate Agree(c: CallState) {
    c.tts.Some? && c.hangup.Some? ==> c.tts.value.ssrc == c.hangup.value.ssrc
  }

  /** What the command under way may rely on, whatever the event loop does meanwhile. */
  predicate CommandOk(w: World) {
    match w.command
    case TtsArm(_, _, _, picked, interrupted, tookOver) =>
      w.call.tts.Some? ==> !interrupted && tookOver && w.call.tts.value.ssrc == picked
    case TtsSend(_, picked, _) =>
      && (w.call.tts.Some? ==> w.call.tts.value.ssrc == picked)
      && (w.call.hangup.Some? ==> w.call.hangup.value.ssrc == picked)
    case TtsCreate(_, picked, _) =>
      && (w.call.tts.Some? ==> w.call.tts.value.ssrc == picked)
      && (w.call.hangup.Some? ==> w.call.hangup.value.ssrc == picked)
    case ReferArm(_) => w.call.tts.None?
    case Referring(_, _, _) => w.call.tts.None?
    case Showing(_, _, sure) => !sure ==> w.call.tts.None?
    case Starting(_, _, sure) => !sure ==> w.call.tts.None?
    case _ => true
  }

  lemma StepAgrees(w: World, a: Action)
    requires Agree(w.call) && CommandOk(w)
    ensures Agree(Apply(w, a).call) && CommandOk(Apply(w, a))
  {
  }

  /** At every lock release of every interleaving. */
  lemma {:induction false} AlwaysAgree(actions: seq<Action>)
    ensures Agree(Run(actions).call) && CommandOk(Run(actions))
  {
    if actions != [] {
      AlwaysAgree(actions[..|actions| - 1]);
      StepAgrees(Run(actions[..|actions| - 1]), actions[|actions| - 1]);
    }
  }

  /** Music on hold is kept in the state of the referred call, so the call's own copy is
      never set and its restart at a track end never happens. */
  lemma {:induction false} MohNeverLoops(actions: seq<Action>)
    ensures Run(actions).call.moh.None? && Run(actions).looping.None?
  {
    if actions != [] {
      MohNeverLoops(actions[..|actions| - 1]);
    }
  }

  // ---------- a hangup is for the playback armed last ----------

  /** The SSRC whose request to hang up still stands after these marks. */
  function Standing(log: seq<Mark>): Option<nat> {
    if log == [] then None
    else
      match log[|log| - 1]
      case WasInterrupted => None
      case PlayStarted(ssrc, auto) => if auto then Some(ssrc) else None
      case ReferStarted(ssrc, auto) => if auto then Some(ssrc) else None
      case Spoken(ssrc, auto, _, _) =>
        if auto || Standing(log[..|log| - 1]) == Some(ssrc) then Some(ssrc) else None
      case _ => Standing(log[..|log| - 1])
  }

  predicate Arms(mark: Mark, ssrc: nat) {
    || mark == PlayStarted(ssrc, true) || mark == ReferStarted(ssrc, true)
    || (mark.Spoken? && mark.ssrc == ssrc && mark.auto)
  }

  predicate Supersedes(mark: Mark) {
    mark.WasInterrupted? || mark.PlayStarted? || mark.ReferStarted?
  }

  /** Mark j armed this SSRC, and nothing between j and i armed anything or superseded it: in between were at most
      speeches on the same SSRC that asked for nothing. */
  predicate ArmedLastAt(log: seq<Mark>, j: nat, i: nat, ssrc: nat) {
    && j < i <= |log| && Arms(log[j], ssrc)
    && forall n :: j < n < i ==> !Supersedes(log[n]) && (log[n].Spoken? ==> log[n].ssrc == ssrc && !log[n].auto)
  }

  lemma {:induction false} StandingMeans(log: seq<Mark>)
    ensures Standing(log).Some? ==> exists j: nat :: ArmedLastAt(log, j, |log|, Standing(log).value)
  {
    if Standing(log).Some? {
      var (n, s) := (|log| - 1, Standing(log).value);
      if Arms(log[n], s) {
        assert ArmedLastAt(log, n, |log|, s);
      } else {
        StandingMeans(log[..n]);
        var j: nat :| ArmedLastAt(log[..n], j, n, s);
        assert ArmedLastAt(log, j, |log|, s);
      }
    }
  }

  predicate StandsInLog(w: World) {
    w.call.hangup.Some? ==> Standing(w.log) == Some(w.call.hangup.value.ssrc)
  }

  predicate LogGrows(w: World, after: World) {
    && w.log <= after.log && |after.log| <= |w.log| + 1
    && w.tracks <= after.tracks
  }

  /** One step: the armed hangup stays the standing one, and a hangup is for the standing SSRC. */
  predicate Stands(w: World, after: World) {
    && StandsInLog(after) && LogGrows(w, after)
    && (|after.log| > |w.log| && after.log[|w.log|].HungUp? ==>
          && after.log[|w.log|].track < |w.tracks|
          && Standing(w.log) == Some(w.tracks[after.log[|w.log|].track].ssrc))
  }

  lemma AdvanceStands(w: World, ok: bool)
    requires StandsInLog(w) && Agree(w.call) && CommandOk(w)
    ensures Stands(w, Advance(w, ok))
  {
    var after := Advance(w, ok);
    if |after.log| > |w.log| {
      assert after.log[..|w.log|] == w.log;
    }
  }

  lemma EventStands(w: World, a: Action)
    requires StandsInLog(w) && w.call.moh.None? && !a.StepCommand?
    ensures Stands(w, Apply(w, a))
  {
    var after := Apply(w, a);
    if |after.log| > |w.log| {
      assert after.log[..|w.log|] == w.log;
    }
  }

  lemma StepStands(w: World, a: Action)
    requires StandsInLog(w) && w.call.moh.None? && Agree(w.call) && CommandOk(w)
    ensures Stands(w, Apply(w, a))
  {
    if a.StepCommand? {
      AdvanceStands(w, a.ok);
    } else {
      EventStands(w, a);
    }
  }

  lemma {:induction false} AlwaysStands(actions: seq<Action>)
    ensures StandsInLog(Run(actions))
  {
    if actions != [] {
      var n := |actions| - 1;
      AlwaysStands(actions[..n]);
      AlwaysAgree(actions[..n]);
      MohNeverLoops(actions[..n]);
      StepStands(Run(actions[..n]), actions[n]);
    }
  }

  /** Whenever a track end hangs up, its SSRC is the one armed last, with no interrupt, play
      or refer since. */
  lemma {:induction false} HangupIsForLastArmed(actions: seq<Action>, i: nat)
    requires i < |Run(actions).log| && Run(actions).log[i].HungUp?
    ensures var w := Run(actions);
            var g := w.log[i].track;
            g < |w.tracks| && exists j: nat :: ArmedLastAt(w.log, j, i, w.tracks[g].ssrc)
  {
    hide Apply;
    if actions != [] {
      var (before, a) := (actions[..|actions| - 1], actions[|actions| - 1]);
      var (was, w) := (Run(before), Run(actions));
      AlwaysStands(before);
      AlwaysAgree(before);
      MohNeverLoops(before);
      StepStands(was, a);
      if i < |was.log| {
        HangupIsForLastArmed(before, i);
        var s := was.tracks[was.log[i].track].ssrc;
        var j: nat :| ArmedLastAt(was.log, j, i, s);
        assert ArmedLastAt(w.log, j, i, s);
      } else {
        StandingMeans(was.log);
        var s := w.tracks[w.log[i].track].ssrc;
        var j: nat :| ArmedLastAt(was.log, j, |was.log|, s);
        assert ArmedLastAt(w.log, j, i, s);
      }
    }
  }

  // ---------- fresh SSRCs ----------

  function Mentions(mark: Mark): Option<nat> {
    match mark
    case PlayStarted(ssrc, _) => Some(ssrc)
    case ReferStarted(ssrc, _) => Some(ssrc)
    case Spoken(ssrc, _, _, _) => Some(ssrc)
    case _ => None
  }

  function Pending(c: Command): Option<nat> {
    match c
    case TtsClear(_, _, _, picked) => Some(picked)
    case TtsArm(_, _, _, picked, _, _) => Some(picked)
    case TtsSend(_, picked, _) => Some(picked)
    case TtsCreate(_, picked, _) => Some(picked)
    case Showing(track, _, _) => Some(track.ssrc)
    case Starting(track, _, _) => Some(track.ssrc)
    case Referring(ssrc, _, _) => Some(ssrc)
    case _ => None
  }

  predicate IsRequest(mark: Mark) {
    mark.PlayStarted? || mark.ReferStarted? || mark.Spoken?
  }

  predicate TookOver(mark: Mark) {
    mark.Spoken? && mark.tookOver
  }

  /** All requests but those that took over a handle have SSRCs never mentioned before, and all mentioned ones were
      drawn. */
  predicate FreshLog(log: seq<Mark>, drawn: nat) {
    && (forall n :: 0 <= n < |log| && Mentions(log[n]).Some? ==> Mentions(log[n]).value < drawn)
    && (forall j, n :: 0 <= j < n < |log| && IsRequest(log[n]) && !TookOver(log[n]) ==>
          Mentions(log[j]) != Mentions(log[n]))
  }

  /** The SSRC that a speech, or the music of a refer, has drawn but not yet used. */
  function Drawn(c: Command): Option<nat> {
    match c
    case TtsClear(_, _, _, picked) => Some(picked)
    case TtsArm(_, _, _, picked, _, tookOver) => if tookOver then None else Some(picked)
    case Referring(_, _, music) => if music.Some? then Some(music.value.ssrc) else None
    case _ => None
  }

  predicate Unmentioned(log: seq<Mark>, ssrc: Option<nat>) {
    ssrc.Some? ==> forall n :: 0 <= n < |log| ==> Mentions(log[n]) != ssrc
  }

  /** Every SSRC in sight was drawn. */
  predicate FreshIds(w: World) {
    && (w.call.tts.Some? ==> w.call.tts.value.ssrc < w.drawn)
    && (Pending(w.command).Some? ==> Pending(w.command).value < w.drawn)
    && (Drawn(w.command).Some? ==> Drawn(w.command).value < w.drawn)
    && (w.command.Referring? ==> Drawn(w.command) != Some(w.command.ssrc))
    && (forall g :: 0 <= g < |w.tracks| ==> w.tracks[g].ssrc < w.drawn)
  }

  predicate Fresh(w: World) {
    FreshIds(w) && FreshLog(w.log, w.drawn) && Unmentioned(w.log, Drawn(w.command))
  }

  lemma AdvanceFreshIds(w: World, ok: bool)
    requires FreshIds(w)
    ensures FreshIds(Advance(w, ok))
  {
  }

  lemma StepFreshIds(w: World, a: Action)
    requires FreshIds(w)
    ensures FreshIds(Apply(w, a))
  {
    if a.StepCommand? {
      AdvanceFreshIds(w, a.ok);
    }
  }

  /** A mark that may be added: whom it mentions was drawn, and is new unless it takes over a handle. */
  predicate FreshMark(w: World, mark: Mark, after: World) {
    && (Mentions(mark).Some? ==> Mentions(mark).value < after.drawn)
    && (IsRequest(mark) && !TookOver(mark) ==> Mentions(mark) == Some(w.drawn) || Mentions(mark) == Drawn(w.command))
  }

  lemma FreshAppend(w: World, mark: Mark, after: World)
    requires Fresh(w) && FreshMark(w, mark, after) && w.drawn <= after.drawn
    ensures FreshLog(w.log + [mark], after.drawn)
  {
  }

  /** What a step writes to the log. */
  predicate LogsFreshly(w: World, after: World) {
    && w.drawn <= after.drawn
    && (after.log == w.log
        || (|after.log| == |w.log| + 1 && after.log == w.log + [after.log[|w.log|]]
            && FreshMark(w, after.log[|w.log|], after)))
  }

  lemma AdvanceLog(w: World, ok: bool)
    requires FreshIds(w)
    ensures LogsFreshly(w, Advance(w, ok))
  {
  }

  lemma StepLog(w: World, a: Action)
    requires FreshIds(w)
    ensures LogsFreshly(w, Apply(w, a))
  {
    if a.StepCommand? {
      AdvanceLog(w, a.ok);
    }
  }

  /** A speech's draw stays unmentioned until its own mark. */
  lemma StepDrawn(w: World, a: Action)
    requires Fresh(w)
    ensures Unmentioned(Apply(w, a).log, Drawn(Apply(w, a).command))
  {
  }

  lemma StepFresh(w: World, a: Action)
    requires Fresh(w)
    ensures Fresh(Apply(w, a))
  {
    StepFreshIds(w, a);
    StepLog(w, a);
    StepDrawn(w, a);
    if Apply(w, a).log != w.log {
      FreshAppend(w, Apply(w, a).log[|w.log|], Apply(w, a));
    }
  }

  lemma {:induction false} AlwaysFresh(actions: seq<Action>)
    ensures Fresh(Run(actions))
  {
    if actions != [] {
      AlwaysFresh(actions[..|actions| - 1]);
      StepFresh(Run(actions[..|actions| - 1]), actions[|actions| - 1]);
    }
  }

  /** A playback that was armed and then superseded by an interrupt, a play or a refer hangs the call up later only if a
      synthesis command took over the same handle and armed it again. */
  lemma SupersededStaysSuperseded(actions: seq<Action>, j: nat, n: nat, i: nat)
    requires j < n < i < |Run(actions).log| && Run(actions).log[i].HungUp?
    requires Run(actions).log[i].track < |Run(actions).tracks|
    requires Arms(Run(actions).log[j], Run(actions).tracks[Run(actions).log[i].track].ssrc)
    requires Supersedes(Run(actions).log[n])
    ensures var w := Run(actions);
            exists r :: n < r < i && Arms(w.log[r], w.tracks[w.log[i].track].ssrc) && TookOver(w.log[r])
  {
    hide Apply;
    var w := Run(actions);
    var s := w.tracks[w.log[i].track].ssrc;
    HangupIsForLastArmed(actions, i);
    AlwaysFresh(actions);
    var r: nat :| ArmedLastAt(w.log, r, i, s);
    assert r >= n;
    assert Mentions(w.log[j]) == Some(s) == Mentions(w.log[r]);
    assert Arms(w.log[r], s) && TookOver(w.log[r]);
  }

  // ---------- which track hangs up ----------

  /** Unless an SSRC was reused, tracks have distinct SSRCs and a track still to be started
      does not share one. */
  predicate Distinct(w: World) {
    !w.reused ==>
      && (forall g, h :: 0 <= g < h < |w.tracks| ==> w.tracks[g].ssrc != w.tracks[h].ssrc)
      && (w.command.TtsCreate? ==> !Used(w.tracks, w.command.picked))
      && (w.command.Showing? || w.command.Starting? ==> !Used(w.tracks, w.command.track.ssrc))
      && (w.command.Referring? ==> !Used(w.tracks, w.command.ssrc))
  }

  lemma StepDistinct(w: World, a: Action)
    requires Distinct(w) && Fresh(w) && (Drawn(w.command).Some? ==> !Used(w.tracks, Drawn(w.command).value))
    ensures Distinct(Apply(w, a))
  {
  }

  // ---------- whether the playback that was armed had begun ----------

  /** The request whose command is under way. */
  function RequestOf(c: Command): Option<nat> {
    match c
    case TtsSend(_, _, request) => Some(request)
    case TtsCreate(_, _, request) => Some(request)
    case Showing(_, request, _) => Some(request)
    case Starting(_, request, _) => Some(request)
    case Referring(_, request, _) => Some(request)
    case _ => None
  }

  predicate HandsOver(mark: Mark, j: nat) {
    mark.HandedOver? && mark.request == j
  }

  /** The request at j was handed over before position i. */
  predicate HandedBefore(log: seq<Mark>, j: nat, i: nat) {
    exists n :: j < n < i <= |log| && HandsOver(log[n], j)
  }

  predicate AbandonedBefore(log: seq<Mark>, j: nat, i: nat) {
    exists n :: j < n < i <= |log| && log[n] == Abandoned(j)
  }

  predicate Settled(log: seq<Mark>, j: nat) {
    HandedBefore(log, j, |log|) || AbandonedBefore(log, j, |log|)
  }

  /** Every request is under way, handed over or abandoned, and no two of these. */
  predicate TracedAt(w: World, j: nat)
    requires j < |w.log|
  {
    && (RequestOf(w.command) == Some(j) ==> !Settled(w.log, j))
    && (RequestOf(w.command) != Some(j) ==> Settled(w.log, j))
    && !(HandedBefore(w.log, j, |w.log|) && AbandonedBefore(w.log, j, |w.log|))
  }

  predicate Traced(w: World) {
    && (RequestOf(w.command).Some? ==>
          var q := RequestOf(w.command).value;
          q < |w.log| && IsRequest(w.log[q]) && Mentions(w.log[q]) == Pending(w.command))
    && (forall j :: 0 <= j < |w.log| && IsRequest(w.log[j]) ==> TracedAt(w, j))
  }

  lemma MarkAdded(log: seq<Mark>, mark: Mark, j: nat)
    requires j < |log|
    ensures HandedBefore(log + [mark], j, |log| + 1) <==> HandedBefore(log, j, |log|) || HandsOver(mark, j)
    ensures AbandonedBefore(log + [mark], j, |log| + 1) <==> AbandonedBefore(log, j, |log|) || mark == Abandoned(j)
  {
    var more := log + [mark];
    assert more[|log|] == mark && forall n :: 0 <= n < |log| ==> more[n] == log[n];
  }

  /** The mark a step adds, if any, and what it means for the request under way. */
  predicate RequestStep(w: World, after: World) {
    var (q, r) := (RequestOf(w.command), RequestOf(after.command));
    if |after.log| == |w.log| then after.log == w.log && r == q
    else
      && |after.log| == |w.log| + 1 && after.log[..|w.log|] == w.log
      && match after.log[|w.log|]
         case HandedOver(x, _) => q == Some(x) && r.None?
         case Abandoned(x) => q == Some(x) && r.None?
         case WasInterrupted => r == q
         case HungUp(_) => r == q
         case request => q.None? && r == Some(|w.log|) && Mentions(request) == Pending(after.command)
  }

  lemma StepRequest(w: World, a: Action)
    requires w.call.moh.None?
    ensures RequestStep(w, Apply(w, a))
    ensures RequestOf(w.command).Some? && RequestOf(Apply(w, a).command).Some? ==>
              Pending(Apply(w, a).command) == Pending(w.command)
  {
  }

  /** A request's own mark comes before its settlement. */
  lemma NotYet(log: seq<Mark>, mark: Mark)
    ensures !Settled(log + [mark], |log|)
  {
  }

  lemma StepTraced(w: World, after: World)
    requires Traced(w) && RequestStep(w, after)
    requires RequestOf(w.command).Some? && RequestOf(after.command).Some? ==>
               Pending(after.command) == Pending(w.command)
    ensures Traced(after)
  {
    if after.log != w.log {
      var mark := after.log[|w.log|];
      assert after.log == w.log + [mark];
      NotYet(w.log, mark);
      forall j | 0 <= j < |w.log| && IsRequest(w.log[j]) ensures TracedAt(after, j) {
        assert TracedAt(w, j);
        MarkAdded(w.log, mark, j);
      }
    }
  }

  lemma {:induction false} AlwaysTraced(actions: seq<Action>)
    ensures Traced(Run(actions))
  {
    if actions != [] {
      var n := |actions| - 1;
      AlwaysTraced(actions[..n]);
      MohNeverLoops(actions[..n]);
      StepRequest(Run(actions[..n]), actions[n]);
      StepTraced(Run(actions[..n]), Run(actions));
    }
  }

  /** A request with an SSRC of its own that was not handed over has no track, and only its own command knows the
      SSRC. */
  predicate HiddenAt(w: World, j: nat)
    requires j < |w.log| && IsRequest(w.log[j])
  {
    !TookOver(w.log[j]) && !HandedBefore(w.log, j, |w.log|) ==>
      var s := Mentions(w.log[j]).value;
      && !Used(w.tracks, s)
      && (w.call.tts.Some? && w.call.tts.value.ssrc == s ==>
            (w.command.Showing? || w.command.Starting?) && w.command.request == j)
      && (Pending(w.command) == Some(s) ==> RequestOf(w.command) == Some(j))
  }

  predicate Hidden(w: World) {
    && (Drawn(w.command).Some? ==> !Used(w.tracks, Drawn(w.command).value))
    && (forall j :: 0 <= j < |w.log| && IsRequest(w.log[j]) ==> HiddenAt(w, j))
  }

  lemma UsedAfter(tracks: seq<Track>, track: Track, ssrc: nat)
    ensures Used(tracks + [track], ssrc) <==> Used(tracks, ssrc) || track.ssrc == ssrc
  {
    var more := tracks + [track];
    assert more[|tracks|] == track && forall g :: 0 <= g < |tracks| ==> more[g] == tracks[g];
  }

  lemma NotUsed(w: World, ssrc: nat)
    requires FreshIds(w) && ssrc >= w.drawn
    ensures !Used(w.tracks, ssrc)
  {
  }

  /** Requests already in the log. */
  predicate OldRequest(w: World, after: World, j: nat) {
    && j < |w.log| && IsRequest(w.log[j]) && |after.log| > j && after.log[j] == w.log[j]
    && (HandedBefore(w.log, j, |w.log|) || (|after.log| > |w.log| && HandsOver(after.log[|w.log|], j)) ==>
          HandedBefore(after.log, j, |after.log|))
  }

  lemma AdvanceHidesOld(w: World, ok: bool, j: nat)
    requires Fresh(w) && CommandOk(w) && Traced(w) && Hidden(w)
    requires OldRequest(w, Advance(w, ok), j)
    ensures HiddenAt(Advance(w, ok), j)
  {
    assert HiddenAt(w, j);
    var after := Advance(w, ok);
    if after.tracks != w.tracks {
      UsedAfter(w.tracks, after.tracks[|w.tracks|], Mentions(w.log[j]).value);
    }
  }

  lemma EventHidesOld(w: World, a: Action, j: nat)
    requires Fresh(w) && Hidden(w) && w.call.moh.None? && w.looping.None? && !a.StepCommand?
    requires OldRequest(w, Apply(w, a), j)
    ensures HiddenAt(Apply(w, a), j)
  {
    assert HiddenAt(w, j);
    var after := Apply(w, a);
    if after.tracks != w.tracks {
      UsedAfter(w.tracks, after.tracks[|w.tracks|], Mentions(w.log[j]).value);
    }
  }

  /** A request that gets its mark now. */
  lemma StepHidesNew(w: World, a: Action)
    requires Fresh(w) && CommandOk(w) && Hidden(w) && w.call.moh.None? && w.looping.None?
    requires |Apply(w, a).log| > |w.log| && IsRequest(Apply(w, a).log[|w.log|])
    ensures HiddenAt(Apply(w, a), |w.log|)
  {
    NotUsed(w, w.drawn);
  }

  lemma StepHidesDraw(w: World, a: Action)
    requires Fresh(w) && Hidden(w) && w.call.moh.None? && w.looping.None?
    ensures Drawn(Apply(w, a).command).Some? ==> !Used(Apply(w, a).tracks, Drawn(Apply(w, a).command).value)
  {
    NotUsed(w, w.drawn);
  }

  lemma StepHides(w: World, a: Action)
    requires Fresh(w) && CommandOk(w) && Traced(w) && Hidden(w) && w.call.moh.None? && w.looping.None?
    ensures Hidden(Apply(w, a))
  {
    var after := Apply(w, a);
    StepRequest(w, a);
    StepHidesDraw(w, a);
    forall j | 0 <= j < |after.log| && IsRequest(after.log[j]) ensures HiddenAt(after, j) {
      if j == |w.log| {
        StepHidesNew(w, a);
      } else {
        LogKept(w, after, j);
        if a.StepCommand? {
          AdvanceHidesOld(w, a.ok, j);
        } else {
          EventHidesOld(w, a, j);
        }
      }
    }
  }

  lemma LogKept(w: World, after: World, j: nat)
    requires RequestStep(w, after) && j < |after.log| && j != |w.log|
    requires IsRequest(after.log[j])
    ensures OldRequest(w, after, j)
  {
    if |after.log| > |w.log| {
      assert after.log == w.log + [after.log[|w.log|]];
      MarkAdded(w.log, after.log[|w.log|], j);
    }
  }

  lemma {:induction false} AlwaysHidden(actions: seq<Action>)
    ensures Hidden(Run(actions))
  {
    if actions != [] {
      var n := |actions| - 1;
      AlwaysHidden(actions[..n]);
      AlwaysFresh(actions[..n]);
      AlwaysAgree(actions[..n]);
      AlwaysTraced(actions[..n]);
      MohNeverLoops(actions[..n]);
      StepHides(Run(actions[..n]), actions[n]);
    }
  }

  /** Every hangup is logged by the end of its track: the state it happened in is that of a shorter run. */
  lemma {:induction false} HangupMoment(actions: seq<Action>, i: nat) returns (n: nat)
    requires i < |Run(actions).log| && Run(actions).log[i].HungUp?
    ensures n < |actions| && actions[n] == End(Run(actions).log[i].track)
    ensures Run(actions[..n]).log == Run(actions).log[..i] && Run(actions[..n]).tracks <= Run(actions).tracks
    ensures Run(actions).log[i].track < |Run(actions[..n]).tracks|
  {
    hide Apply, Standing;
    n := |actions| - 1;
    var w := Run(actions[..n]);
    MohNeverLoops(actions[..n]);
    AlwaysStands(actions[..n]);
    AlwaysAgree(actions[..n]);
    StepStands(w, actions[n]);
    if i < |w.log| {
      var m := HangupMoment(actions[..n], i);
      assert actions[..n][..m] == actions[..m];
      n := m;
    } else {
      HangupIsEnd(w, actions[n]);
    }
  }

  lemma HangupIsEnd(w: World, a: Action)
    requires |Apply(w, a).log| == |w.log| + 1 && Apply(w, a).log[|w.log|].HungUp?
    ensures a == End(Apply(w, a).log[|w.log|].track)
    ensures Apply(w, a).log[..|w.log|] == w.log && Apply(w, a).log[|w.log|].track < |w.tracks|
  {
  }

  /** A track end hangs up for a request that was handed over to some track exactly when it does not arrive while its own
      command is still sending, creating, showing or starting, nor after its set-up failed. Only a speech that took over
      the SSRC of a running handle can be hung up before it was handed over. */
  lemma HandedOverIff(actions: seq<Action>, i: nat, j: nat) returns (n: nat)
    requires i < |Run(actions).log| && Run(actions).log[i].HungUp? && Run(actions).log[i].track < |Run(actions).tracks|
    requires ArmedLastAt(Run(actions).log, j, i, Run(actions).tracks[Run(actions).log[i].track].ssrc)
    ensures n < |actions| && actions[n] == End(Run(actions).log[i].track)
    ensures Run(actions[..n]).log == Run(actions).log[..i]
    ensures HandedBefore(Run(actions).log, j, i)
       <==> RequestOf(Run(actions[..n]).command) != Some(j) && !AbandonedBefore(Run(actions).log, j, i)
    ensures !HandedBefore(Run(actions).log, j, i) ==> TookOver(Run(actions).log[j])
  {
    n := HangupMoment(actions, i);
    var (w, was) := (Run(actions), Run(actions[..n]));
    AlwaysTraced(actions[..n]);
    AlwaysHidden(actions[..n]);
    SamePast(w.log, j, i);
    assert was.log[j] == w.log[j] && TracedAt(was, j) && HiddenAt(was, j);
    var g := w.log[i].track;
    assert was.tracks[g] == w.tracks[g];
    assert Used(was.tracks, w.tracks[g].ssrc);
  }

  lemma SamePast(log: seq<Mark>, j: nat, i: nat)
    requires i <= |log|
    ensures HandedBefore(log, j, i) <==> HandedBefore(log[..i], j, i)
    ensures AbandonedBefore(log, j, i) <==> AbandonedBefore(log[..i], j, i)
  {
    assert forall n :: 0 <= n < i ==> log[..i][n] == log[n];
  }

  lemma {:induction false} AlwaysDistinct(actions: seq<Action>)
    ensures Distinct(Run(actions))
  {
    if actions != [] {
      var n := |actions| - 1;
      AlwaysDistinct(actions[..n]);
      AlwaysFresh(actions[..n]);
      AlwaysHidden(actions[..n]);
      StepDistinct(Run(actions[..n]), actions[n]);
    }
  }

  // ---------- which track carries a request ----------

  predicate ToTrack(mark: Mark, track: nat) {
    mark.HandedOver? && mark.track == track
  }

  /** The first request handed over to a track is the one it was started for. */
  predicate StartedFor(log: seq<Mark>, n: nat, track: nat) {
    n < |log| && ToTrack(log[n], track) && forall m :: 0 <= m < n ==> !ToTrack(log[m], track)
  }

  predicate OlderTrack(tracks: seq<Track>, track: nat) {
    track < |tracks| && exists g :: 0 <= g < track && tracks[g].ssrc == tracks[track].ssrc
  }

  /** A request is carried by a track with its SSRC. One with an SSRC of its own is carried by the first track under it,
      which was started for it. */
  predicate CarriedAt(log: seq<Mark>, tracks: seq<Track>, n: nat) {
    n < |log| && log[n].HandedOver? ==>
      var (x, c) := (log[n].request, log[n].track);
      && x < n && IsRequest(log[x]) && c < |tracks| && Mentions(log[x]) == Some(tracks[c].ssrc)
      && (!TookOver(log[x]) ==> StartedFor(log, n, c) && !OlderTrack(tracks, c))
      && (TookOver(log[x]) && StartedFor(log, n, c) ==> OlderTrack(tracks, c))
  }

  /** A track under an SSRC that an older one has was started for a speech that took that SSRC over. */
  predicate SecondAt(log: seq<Mark>, tracks: seq<Track>, track: nat) {
    OlderTrack(tracks, track) ==> exists n :: 0 <= n < |log| && StartedFor(log, n, track) && HandsTakenOver(log, n)
  }

  predicate HandsTakenOver(log: seq<Mark>, n: nat) {
    n < |log| && log[n].HandedOver? && log[n].request < |log| && TookOver(log[log[n].request])
  }

  predicate Carried(w: World) {
    && (forall n :: 0 <= n < |w.log| ==> CarriedAt(w.log, w.tracks, n))
    && (forall h :: 0 <= h < |w.tracks| ==> SecondAt(w.log, w.tracks, h))
  }

  /** Some request was handed over to a track with this SSRC. */
  predicate Carrying(log: seq<Mark>, tracks: seq<Track>, ssrc: nat) {
    exists n :: 0 <= n < |log| && log[n].HandedOver? && log[n].track < |tracks| && tracks[log[n].track].ssrc == ssrc
  }

  /** The running handle has a track, or its track is about to start. */
  predicate HandleBacked(w: World) {
    w.call.tts.Some? ==>
      || Carrying(w.log, w.tracks, w.call.tts.value.ssrc)
      || ((w.command.Showing? || w.command.Starting?) && w.command.track.ssrc == w.call.tts.value.ssrc)
  }

  /** So has the handle that the speech under way took over. */
  predicate SpeechBacked(w: World) {
    && (w.command.TtsArm? && w.command.tookOver ==> Carrying(w.log, w.tracks, w.command.picked))
    && (RequestOf(w.command).Some?
        && RequestOf(w.command).value < |w.log| && TookOver(w.log[RequestOf(w.command).value])
        ==> Pending(w.command).Some? && Carrying(w.log, w.tracks, Pending(w.command).value))
  }

  predicate Backed(w: World) {
    HandleBacked(w) && SpeechBacked(w)
  }

  lemma CarryingStays(w: World, after: World, ssrc: nat)
    requires w.log <= after.log && w.tracks <= after.tracks
    ensures Carrying(w.log, w.tracks, ssrc) ==> Carrying(after.log, after.tracks, ssrc)
  {
    assert forall n :: 0 <= n < |w.log| ==> after.log[n] == w.log[n];
    assert forall g :: 0 <= g < |w.tracks| ==> after.tracks[g] == w.tracks[g];
  }

  lemma CarryingUses(log: seq<Mark>, tracks: seq<Track>, ssrc: nat)
    requires Carrying(log, tracks, ssrc)
    ensures Used(tracks, ssrc)
  {
  }

  lemma CarryingNow(log: seq<Mark>, tracks: seq<Track>, request: nat, track: Track)
    ensures Carrying(log + [HandedOver(request, |tracks|)], tracks + [track], track.ssrc)
  {
    assert (log + [HandedOver(request, |tracks|)])[|log|] == HandedOver(request, |tracks|);
    assert (tracks + [track])[|tracks|] == track;
  }

  lemma AdvanceHandleBacked(w: World, ok: bool)
    requires HandleBacked(w) && CommandOk(w)
    ensures HandleBacked(Advance(w, ok))
  {
    hide Carrying;
    if w.call.tts.Some? {
      CarryingStays(w, Advance(w, ok), w.call.tts.value.ssrc);
    }
    if w.command.Starting? {
      CarryingNow(w.log, w.tracks, w.command.request, w.command.track);
    }
  }

  lemma AdvanceSpeechBacked(w: World, ok: bool)
    requires SpeechBacked(w) && Traced(w)
    ensures SpeechBacked(Advance(w, ok))
  {
    hide Carrying;
    if Pending(w.command).Some? {
      CarryingStays(w, Advance(w, ok), Pending(w.command).value);
    }
  }

  lemma AdvanceBacked(w: World, ok: bool)
    requires Backed(w) && Traced(w) && CommandOk(w)
    ensures Backed(Advance(w, ok))
  {
    hide Advance, HandleBacked, SpeechBacked;
    AdvanceHandleBacked(w, ok);
    AdvanceSpeechBacked(w, ok);
  }

  lemma StepBacked(w: World, a: Action)
    requires Backed(w) && Traced(w) && CommandOk(w) && w.call.moh.None? && w.looping.None?
    ensures Backed(Apply(w, a))
  {
    hide Carrying;
    if a.StepCommand? {
      AdvanceBacked(w, a.ok);
    } else {
      var after := Apply(w, a);
      if w.call.tts.Some? {
        CarryingStays(w, after, w.call.tts.value.ssrc);
      }
      if Pending(w.command).Some? {
        CarryingStays(w, after, Pending(w.command).value);
      }
    }
  }

  lemma {:induction false} AlwaysBacked(actions: seq<Action>)
    ensures Backed(Run(actions))
  {
    if actions != [] {
      var n := |actions| - 1;
      AlwaysBacked(actions[..n]);
      AlwaysAgree(actions[..n]);
      AlwaysTraced(actions[..n]);
      MohNeverLoops(actions[..n]);
      hide Apply;
      StepBacked(Run(actions[..n]), actions[n]);
    }
  }

  /** What a step does to the tracks, and to whom it hands a request over. */
  predicate TrackStep(w: World, after: World) {
    if after.log == w.log then after.tracks == w.tracks || GrowsBy(w, after, false)
    else
      && |after.log| == |w.log| + 1 && after.log == w.log + [after.log[|w.log|]]
      && match after.log[|w.log|]
         case HandedOver(x, c) =>
           && x < |w.log| && IsRequest(w.log[x])
           && c < |after.tracks| && Mentions(w.log[x]) == Some(after.tracks[c].ssrc)
           && if c == |w.tracks| then GrowsBy(w, after, TookOver(w.log[x]))
              else after.tracks == w.tracks && TookOver(w.log[x]) && Sends(w, c)
         case _ => after.tracks == w.tracks
  }

  /** One more track, under an SSRC that was used before or not. */
  predicate GrowsBy(w: World, after: World, used: bool) {
    && |after.tracks| == |w.tracks| + 1 && after.tracks == w.tracks + [after.tracks[|w.tracks|]]
    && (Used(w.tracks, after.tracks[|w.tracks|].ssrc) <==> used)
  }

  /** The newest track under a handle that has one. */
  predicate Sends(w: World, c: nat) {
    && c < |w.tracks| && c == Newest(w.tracks, w.tracks[c].ssrc) && Carrying(w.log, w.tracks, w.tracks[c].ssrc)
  }

  lemma StartStep(w: World)
    requires w.command.Starting? && Traced(w) && Hidden(w) && Backed(w)
    ensures TrackStep(w, Advance(w, true))
  {
    var q := w.command.request;
    assert TracedAt(w, q) && HiddenAt(w, q);
    if TookOver(w.log[q]) {
      CarryingUses(w.log, w.tracks, w.command.track.ssrc);
    }
  }

  lemma SendStep(w: World)
    requires w.command.TtsSend? && Traced(w) && Hidden(w) && Backed(w) && CommandOk(w)
    ensures TrackStep(w, Advance(w, true))
  {
    var q := w.command.request;
    assert TracedAt(w, q) && HiddenAt(w, q);
    if w.call.tts.Some? {
      CarryingUses(w.log, w.tracks, w.call.tts.value.ssrc);
    }
  }

  lemma StepTracks(w: World, a: Action)
    requires Traced(w) && Hidden(w) && Backed(w) && CommandOk(w) && w.call.moh.None? && w.looping.None?
    ensures TrackStep(w, Apply(w, a))
  {
    if a.StepCommand? && w.command.Starting? {
      StartStep(w);
    } else if a.StepCommand? && w.command.TtsSend? {
      SendStep(w);
    }
  }

  lemma StartedForStays(log: seq<Mark>, more: seq<Mark>, n: nat, track: nat)
    requires log <= more && n < |log|
    ensures StartedFor(more, n, track) <==> StartedFor(log, n, track)
  {
    assert forall m :: 0 <= m < |log| ==> more[m] == log[m];
  }

  lemma OlderTrackStays(tracks: seq<Track>, more: seq<Track>, track: nat)
    requires tracks <= more && track < |tracks|
    ensures OlderTrack(more, track) <==> OlderTrack(tracks, track)
  {
    assert forall g :: 0 <= g < |tracks| ==> more[g] == tracks[g];
  }

  lemma CarriedAtStays(w: World, after: World, n: nat)
    requires n < |w.log| && w.log <= after.log && w.tracks <= after.tracks && CarriedAt(w.log, w.tracks, n)
    ensures CarriedAt(after.log, after.tracks, n)
  {
    assert forall m :: 0 <= m < |w.log| ==> after.log[m] == w.log[m];
    if w.log[n].HandedOver? {
      StartedForStays(w.log, after.log, n, w.log[n].track);
      OlderTrackStays(w.tracks, after.tracks, w.log[n].track);
      assert after.tracks[w.log[n].track] == w.tracks[w.log[n].track];
    }
  }

  lemma SecondAtStays(w: World, after: World, track: nat)
    requires track < |w.tracks| && w.log <= after.log && w.tracks <= after.tracks && SecondAt(w.log, w.tracks, track)
    ensures SecondAt(after.log, after.tracks, track)
  {
    OlderTrackStays(w.tracks, after.tracks, track);
    if OlderTrack(w.tracks, track) {
      var n :| 0 <= n < |w.log| && StartedFor(w.log, n, track) && HandsTakenOver(w.log, n);
      StartedForStays(w.log, after.log, n, track);
      assert after.log[n] == w.log[n] && after.log[w.log[n].request] == w.log[w.log[n].request];
      assert StartedFor(after.log, n, track) && HandsTakenOver(after.log, n);
    }
  }

  /** A track that is started now. */
  lemma NewTrackCarried(w: World, after: World)
    requires Carried(w) && TrackStep(w, after) && after.tracks != w.tracks
    ensures after.log != w.log ==> CarriedAt(after.log, after.tracks, |w.log|)
    ensures SecondAt(after.log, after.tracks, |w.tracks|)
  {
    var c := |w.tracks|;
    assert forall m :: 0 <= m < |w.log| ==> after.log[m] == w.log[m];
    assert forall g :: 0 <= g < c ==> after.tracks[g] == w.tracks[g];
    assert OlderTrack(after.tracks, c) <==> Used(w.tracks, after.tracks[c].ssrc);
    if after.log != w.log {
      forall m | 0 <= m < |w.log| ensures !ToTrack(after.log[m], c) {
        assert CarriedAt(w.log, w.tracks, m);
      }
      assert StartedFor(after.log, |w.log|, c);
      assert TookOver(w.log[after.log[|w.log|].request]) ==> HandsTakenOver(after.log, |w.log|);
    }
  }

  /** The track of a send was started before. */
  lemma SentTrackStarted(w: World, c: nat)
    requires Carried(w) && Sends(w, c)
    ensures exists m :: 0 <= m < |w.log| && ToTrack(w.log[m], c)
  {
    var s := w.tracks[c].ssrc;
    var m :| 0 <= m < |w.log| && w.log[m].HandedOver?
             && w.log[m].track < |w.tracks| && w.tracks[w.log[m].track].ssrc == s;
    if w.log[m].track == c {
      assert ToTrack(w.log[m], c);
    } else {
      assert w.log[m].track < c && OlderTrack(w.tracks, c) && SecondAt(w.log, w.tracks, c);
      var n :| 0 <= n < |w.log| && StartedFor(w.log, n, c) && HandsTakenOver(w.log, n);
      assert ToTrack(w.log[n], c);
    }
  }

  lemma SendCarried(w: World, after: World)
    requires Carried(w) && TrackStep(w, after) && after.tracks == w.tracks && after.log != w.log
    ensures CarriedAt(after.log, after.tracks, |w.log|)
  {
    var mark := after.log[|w.log|];
    if mark.HandedOver? {
      SentTrackStarted(w, mark.track);
      var m :| 0 <= m < |w.log| && ToTrack(w.log[m], mark.track);
      assert after.log[m] == w.log[m] && !StartedFor(after.log, |w.log|, mark.track);
    }
  }

  lemma StepCarried(w: World, after: World)
    requires Carried(w) && TrackStep(w, after)
    ensures Carried(after)
  {
    forall n | 0 <= n < |after.log| ensures CarriedAt(after.log, after.tracks, n) {
      if n < |w.log| {
        CarriedAtStays(w, after, n);
      } else if after.tracks != w.tracks {
        NewTrackCarried(w, after);
      } else {
        SendCarried(w, after);
      }
    }
    forall h | 0 <= h < |after.tracks| ensures SecondAt(after.log, after.tracks, h) {
      if h < |w.tracks| {
        SecondAtStays(w, after, h);
      } else {
        NewTrackCarried(w, after);
      }
    }
  }

  lemma {:induction false} AlwaysCarried(actions: seq<Action>)
    ensures Carried(Run(actions))
  {
    if actions != [] {
      var n := |actions| - 1;
      var w := Run(actions[..n]);
      AlwaysCarried(actions[..n]);
      AlwaysAgree(actions[..n]);
      AlwaysTraced(actions[..n]);
      AlwaysHidden(actions[..n]);
      AlwaysBacked(actions[..n]);
      MohNeverLoops(actions[..n]);
      hide Apply;
      StepTracks(w, actions[n]);
      StepCarried(w, Run(actions));
    }
  }

  /** The track a request was started for is not the first under its SSRC if and only if the request is a speech that
      took that SSRC over. */
  lemma SecondTrackIff(actions: seq<Action>, n: nat, h: nat)
    requires n < |Run(actions).log| && h < |Run(actions).tracks| && StartedFor(Run(actions).log, n, h)
    ensures var w := Run(actions);
            OlderTrack(w.tracks, h) <==> HandsTakenOver(w.log, n)
  {
    hide Apply;
    AlwaysCarried(actions);
    assert CarriedAt(Run(actions).log, Run(actions).tracks, n);
  }

  /** The track that hangs up is the only one ever started with its SSRC, unless a speech that took the SSRC over had to
      start another one. */
  lemma HangupByItsOwnTrack(actions: seq<Action>, i: nat, h: nat)
    requires i < |Run(actions).log| && Run(actions).log[i].HungUp? && h < |Run(actions).tracks|
    ensures var w := Run(actions);
            var g := w.log[i].track;
            && g < |w.tracks|
            && (w.tracks[h].ssrc == w.tracks[g].ssrc && h != g ==>
                  exists n :: 0 <= n < |w.log| && StartedFor(w.log, n, Max(g, h)) && HandsTakenOver(w.log, n))
            && (!w.reused && w.tracks[h].ssrc == w.tracks[g].ssrc ==> h == g)
            && (!w.reused && w.command.TtsCreate? ==> w.command.picked != w.tracks[g].ssrc)
  {
    hide Apply;
    HangupIsForLastArmed(actions, i);
    AlwaysDistinct(actions);
    AlwaysCarried(actions);
    var w := Run(actions);
    var g := w.log[i].track;
    assert w.command.TtsCreate? && w.command.picked == w.tracks[g].ssrc ==> Used(w.tracks, w.command.picked);
    if w.tracks[h].ssrc == w.tracks[g].ssrc && h != g {
      var (older, newer) := (Min(g, h) as nat, Max(g, h) as nat);
      assert w.tracks[older].ssrc == w.tracks[newer].ssrc && OlderTrack(w.tracks, newer);
      assert SecondAt(w.log, w.tracks, newer);
    }
  }

  // ---------- hung up by its own track, and not before ----------

  predicate IsLast(mark: Mark) {
    mark.Spoken? && mark.last
  }

  /** The text went to a track that had already taken the last text of its stream: such a track reads no more. */
  predicate Unread(log: seq<Mark>, n: nat) {
    && n < |log| && log[n].HandedOver?
    && exists m :: 0 <= m < n && ToTrack(log[m], log[n].track) && log[m].request < |log| && IsLast(log[log[m].request])
  }

  /** The request was handed over to a track not newer than g, which was still reading. */
  predicate InTime(log: seq<Mark>, j: nat, i: nat, g: nat) {
    exists n :: j < n < i <= |log| && HandsOver(log[n], j) && log[n].track <= g && !Unread(log, n)
  }

  /** The track that carries the request, if any, is not newer than g and was still reading. */
  predicate OwnTrackBy(log: seq<Mark>, j: nat, i: nat, g: nat) {
    forall n :: j < n < i <= |log| && HandsOver(log[n], j) ==> log[n].track <= g && !Unread(log, n)
  }

  /** No request is handed over twice. */
  predicate Once(log: seq<Mark>) {
    forall m, n :: 0 <= m < n < |log| && log[m].HandedOver? && log[n].HandedOver? ==> log[m].request != log[n].request
  }

  lemma StepOnce(w: World, after: World)
    requires Once(w.log) && Traced(w) && Carried(w) && RequestStep(w, after)
    ensures Once(after.log)
  {
    if after.log != w.log {
      var mark := after.log[|w.log|];
      assert after.log == w.log + [mark];
      if mark.HandedOver? {
        assert TracedAt(w, mark.request);
        forall m | 0 <= m < |w.log| && w.log[m].HandedOver? ensures w.log[m].request != mark.request {
          assert CarriedAt(w.log, w.tracks, m);
          assert HandsOver(w.log[m], w.log[m].request);
        }
      }
    }
  }

  lemma {:induction false} AlwaysOnce(actions: seq<Action>)
    ensures Once(Run(actions).log)
  {
    if actions != [] {
      var n := |actions| - 1;
      AlwaysOnce(actions[..n]);
      AlwaysTraced(actions[..n]);
      AlwaysCarried(actions[..n]);
      MohNeverLoops(actions[..n]);
      hide Apply;
      StepRequest(Run(actions[..n]), actions[n]);
      StepOnce(Run(actions[..n]), Run(actions));
    }
  }

  /** A request with an SSRC of its own is carried by the first track under it, which reads it. */
  lemma OwnSsrcInTime(w: World, n: nat, j: nat, g: nat)
    requires Carried(w) && n < |w.log| && HandsOver(w.log[n], j) && j < |w.log| && !TookOver(w.log[j])
    requires g < |w.tracks| && Mentions(w.log[j]) == Some(w.tracks[g].ssrc)
    ensures w.log[n].track <= g && !Unread(w.log, n)
  {
    var c := w.log[n].track;
    assert CarriedAt(w.log, w.tracks, n);
    assert StartedFor(w.log, n, c) && !OlderTrack(w.tracks, c);
    assert g < c ==> OlderTrack(w.tracks, c);
  }

  /** A track end hangs up no earlier than the request's own track, and that track was still reading when the request
      came, if and only if the request's command is not under way, its set-up did not fail, and the track it was handed
      over to is not newer than the one that ends and had not taken its last text. Only a speech that took over the SSRC
      of a running handle can fail this. */
  lemma OwnTrackIff(actions: seq<Action>, i: nat, j: nat) returns (n: nat)
    requires i < |Run(actions).log| && Run(actions).log[i].HungUp? && Run(actions).log[i].track < |Run(actions).tracks|
    requires ArmedLastAt(Run(actions).log, j, i, Run(actions).tracks[Run(actions).log[i].track].ssrc)
    ensures n < |actions| && actions[n] == End(Run(actions).log[i].track)
    ensures Run(actions[..n]).log == Run(actions).log[..i]
    ensures InTime(Run(actions).log, j, i, Run(actions).log[i].track)
       <==> && RequestOf(Run(actions[..n]).command) != Some(j) && !AbandonedBefore(Run(actions).log, j, i)
            && OwnTrackBy(Run(actions).log, j, i, Run(actions).log[i].track)
    ensures !InTime(Run(actions).log, j, i, Run(actions).log[i].track) ==> TookOver(Run(actions).log[j])
  {
    hide Apply;
    n := HandedOverIff(actions, i, j);
    AlwaysOnce(actions);
    AlwaysCarried(actions);
    var w := Run(actions);
    var g := w.log[i].track;
    if !TookOver(w.log[j]) {
      var m :| j < m < i <= |w.log| && HandsOver(w.log[m], j);
      OwnSsrcInTime(w, m, j, g);
    }
  }

  // ---------- the ways to be hung up too early ----------

  function Speech(auto: bool, last: bool): Action {
    StartTts(Some("p"), auto, last, None)
  }

  /** A first speech up to its started track, then an arming one on the same play id up to where its text is sent. */
  function TwoSpeeches(last: bool): seq<Action> {
    var s := StepCommand(true);
    [Speech(false, last), s, s, s, s, s, Speech(true, true), s]
  }

  function Playing(hangup: Option<Arm>): CallState {
    CallState(Some(Handle(Some("p"), 0)), hangup, None, None, Some("p"))
  }

  function Sending(last: bool): World {
    World(Playing(Some(Arm(0, BySystem))), TtsSend(Some("p"), 0, 2), None, [Track(Some("p"), 0)], 2, false,
          [Spoken(0, false, false, last), HandedOver(0, 0), Spoken(0, true, true, true)])
  }

  lemma RunMore(actions: seq<Action>, a: Action)
    ensures Run(actions + [a]) == Apply(Run(actions), a)
  {
    assert (actions + [a])[..|actions|] == actions;
  }

  function Steps(w: World, oks: seq<bool>): World
    decreases |oks|
  {
    if oks == [] then w else Steps(Advance(w, oks[0]), oks[1..])
  }

  function StepsOf(oks: seq<bool>): seq<Action> {
    if oks == [] then [] else [StepCommand(oks[0])] + StepsOf(oks[1..])
  }

  lemma RunStep(actions: seq<Action>, ok: bool)
    ensures Run(actions + [StepCommand(ok)]) == Advance(Run(actions), ok)
  {
    hide Advance;
    RunMore(actions, StepCommand(ok));
  }

  lemma {:induction false} RunSteps(actions: seq<Action>, oks: seq<bool>)
    ensures Run(actions + StepsOf(oks)) == Steps(Run(actions), oks)
    decreases |oks|
  {
    hide Run, Apply, Advance;
    if oks == [] {
      assert actions + [] == actions;
    } else {
      var a := StepCommand(oks[0]);
      RunStep(actions, oks[0]);
      RunSteps(actions + [a], oks[1..]);
      Reassociated(actions, a, StepsOf(oks[1..]));
    }
  }

  lemma Reassociated(actions: seq<Action>, a: Action, more: seq<Action>)
    ensures actions + ([a] + more) == actions + [a] + more
  {
  }

  lemma TwoSpeechesRun(last: bool)
    ensures Run(TwoSpeeches(last)) == Sending(last)
  {
    FirstSpeechRun(last);
    var s := StepCommand(true);
    var first := [Speech(false, last), s, s, s, s, s];
    RunMore(first, Speech(true, true));
    RunMore(first + [Speech(true, true)], s);
    assert TwoSpeeches(last) == first + [Speech(true, true)] + [s];
  }

  lemma FirstSpeechRun(last: bool)
    ensures var s := StepCommand(true);
            Run([Speech(false, last), s, s, s, s, s])
              == World(Playing(None), Ready, None, [Track(Some("p"), 0)], 1, false,
                       [Spoken(0, false, false, last), HandedOver(0, 0)])
  {
    var s, a := StepCommand(true), Speech(false, last);
    var armed := World(CallState(None, None, None, None, Some("p")), TtsArm(Some("p"), false, last, 0, false, false),
                       None, [], 1, false, []);
    RunMore([], a);
    assert [] + [a] == [a] && Run([a]) == armed;
    var five := [true, true, true, true, true];
    assert five[1..] == [true, true, true, true] && five[1..][1..] == [true, true, true];
    assert [true, true, true][1..] == [true, true] && [true, true][1..] == [true] && [true][1..] == [];
    assert StepsOf(five) == [s, s, s, s, s];
    RunSteps([a], five);
    assert [a] + StepsOf(five) == [a, s, s, s, s, s];
    FirstSteps(armed, last);
  }

  lemma FirstSteps(armed: World, last: bool)
    requires armed == World(CallState(None, None, None, None, Some("p")),
                            TtsArm(Some("p"), false, last, 0, false, false), None, [], 1, false, [])
    ensures Steps(armed, [true, true, true, true, true])
         == World(Playing(None), Ready, None, [Track(Some("p"), 0)], 1, false,
                  [Spoken(0, false, false, last), HandedOver(0, 0)])
  {
    var sent := Advance(armed, true);
    var created := Advance(Advance(sent, true), true);
    assert created == World(Playing(None), Showing(Track(Some("p"), 0), 0, true), None, [], 1, false,
                            [Spoken(0, false, false, last)]);
    assert [true, true, true, true, true][1..] == [true, true, true, true];
    assert [true, true, true, true][1..] == [true, true, true] && [true, true, true][1..] == [true, true];
    assert [true, true][1..] == [true] && [true][1..] == [];
  }

  /** The arming speech takes some more steps, then the first speech's track ends. */
  lemma ThenEnd(last: bool, oks: seq<bool>) returns (actions: seq<Action>)
    ensures Run(actions) == Apply(Steps(Sending(last), oks), End(0))
  {
    TwoSpeechesRun(last);
    RunSteps(TwoSpeeches(last), oks);
    RunMore(TwoSpeeches(last) + StepsOf(oks), End(0));
    actions := TwoSpeeches(last) + StepsOf(oks) + [End(0)];
  }

  /** The first speech's track ends before the second text is sent: no SSRC was reused, and the text is never spoken. */
  lemma HangupBeforeSend() returns (actions: seq<Action>)
    ensures var w := Run(actions);
            w.log == Sending(false).log + [HungUp(0)] && w.command == TtsSend(Some("p"), 0, 2) && !w.reused
  {
    actions := ThenEnd(false, []);
  }

  /** It ends while a second track is being created under its SSRC, the send having failed. */
  lemma HangupBeforeItsTrack() returns (actions: seq<Action>)
    ensures var w := Run(actions);
            && w.log == Sending(false).log + [HungUp(0)] && w.command == TtsCreate(Some("p"), 0, 2)
            && w.tracks == [Track(Some("p"), 0)]
  {
    actions := ThenEnd(false, [false]);
  }

  /** It ends when the second track is created and its play id written, but the track not started. */
  lemma HangupBeforeStart() returns (actions: seq<Action>)
    ensures var w := Run(actions);
            && w.log == Sending(false).log + [HungUp(0)] && w.command == Starting(Track(Some("p"), 0), 2, true)
            && w.tracks == [Track(Some("p"), 0)]
  {
    assert [false, true, true][1..] == [true, true] && [true, true][1..] == [true] && [true][1..] == [];
    actions := ThenEnd(false, [false, true, true]);
  }

  /** It ends after that creation failed: the command is over, but what it armed stands. */
  lemma HangupAfterFailure() returns (actions: seq<Action>)
    ensures var w := Run(actions);
            w.log == Sending(false).log + [Abandoned(2), HungUp(0)] && w.command == Ready
  {
    assert [false, false][1..] == [false] && [false][1..] == [];
    actions := ThenEnd(false, [false, false]);
  }

  /** It ends late, when the second track has started and carries the second text. */
  lemma HangupByOlderTrack() returns (actions: seq<Action>)
    ensures var w := Run(actions);
            && w.log == Sending(false).log + [HandedOver(2, 1), HungUp(0)] && w.command == Ready
            && w.tracks == [Track(Some("p"), 0), Track(Some("p"), 0)]
            && !InTime(w.log, 2, 4, 0)
  {
    assert [false, true, true, true][1..] == [true, true, true] && [true, true, true][1..] == [true, true];
    assert [true, true][1..] == [true] && [true][1..] == [];
    actions := ThenEnd(false, [false, true, true, true]);
  }

  /** It ends as it should, but the first text was the last it read: the second one was sent in vain. */
  lemma HangupUnread() returns (actions: seq<Action>)
    ensures var w := Run(actions);
            && w.log == Sending(true).log + [HandedOver(2, 0), HungUp(0)] && w.command == Ready
            && w.tracks == [Track(Some("p"), 0)]
            && Unread(w.log, 3) && !InTime(w.log, 2, 4, 0)
  {
    assert [true][1..] == [];
    actions := ThenEnd(true, [true]);
    var log := Run(actions).log;
    assert log[1] == HandedOver(0, 0) && log[3] == HandedOver(2, 0) && IsLast(log[0]) && ToTrack(log[1], 0);
  }
}
