/**
  The ball and scoring gate of the ring-toss game (onFrame in src/index.js).

  The program keeps three module-level variables that this model tracks:
  `score`, `ball` (here `ballLive`, for `ball != null`) and `isScoring`, and it
  writes the score board and the arrow's material. What three.js and the
  physics decide each frame enters as booleans: whether a controller exists,
  whether its ray hits the mesh named `Launcher`, whether its trigger was
  clicked, whether the launcher holds a `Ball` prototype, whether the live
  ball's time to live has run out and whether it is within reach of the ring.

  Work the program defers to later is counted: every expiry tween and every
  scored tween whose onComplete has not yet run, and every 200 ms timer that
  has not yet fired. A callback can only run while one of its kind is pending.

  `GameState` and the functions over it are the specification; class `Game`
  holds the same state in mutable fields, with one method per entry point of
  the program, each proved to follow the specification.
 */
module RingToss {
  import opened ScoreDisplay

  /** One entry of controllerConfigs: an XR controller, or nothing when the
      hand is not tracked. */
  datatype Controller = Absent | Present(rayOnLauncher: bool, triggerClicked: bool)

  /** The arrow above the launcher: not yet loaded, or loaded and showing the
      highlight material or its own. */
  datatype Arrow = NotLoaded | Loaded(highlighted: bool)

  datatype GameState = GameState(
    score: int,
    ballLive: bool,
    isScoring: bool,
    display: string,      // the score board text
    arrow: Arrow,
    expiryTweens: nat,    // expiry tweens whose onComplete is still to run
    scoreTimers: nat,     // 200 ms timers started by a hit, not yet fired
    scoreTweens: nat      // scored tweens whose onComplete is still to run
  )

  /** The controller's ray hits the Launcher mesh. */
  predicate Aims(c: Controller) {
    c.Present? && c.rayOnLauncher
  }

  /** The controller would launch a ball if none is live. */
  predicate Pulls(c: Controller, prototypeExists: bool) {
    Aims(c) && c.triggerClicked && prototypeExists
  }

  /** State after module initialisation and setupScene's first board update. */
  function Init(): (s: GameState)
    ensures s.score == 0 && !s.ballLive && !s.isScoring
    ensures s.display == "0000"
  {
    FormatScoreSaturates(0);
    GameState(0, false, false, FormatScore(0), NotLoaded, 0, 0, 0)
  }

  /** What the program maintains between any two callbacks. */
  predicate Inv(s: GameState) {
    && s.score >= 0
    && s.score % 10 == 0
    && s.display == FormatScore(s.score)
    && s.scoreTimers + s.scoreTweens <= 1
    && (s.scoreTimers + s.scoreTweens == 1 ==> s.isScoring)
  }

  /** The arrow loader's callback: the arrow appears with its own material. */
  function ArrowArrives(s: GameState): (t: GameState)
    requires s.arrow == NotLoaded
    ensures t.arrow == Loaded(false)
    ensures t.(arrow := NotLoaded) == s
  {
    s.(arrow := Loaded(false))
  }

  /** One call of onFrame. `right` and `left` are controllerConfigs[0] and
      [1]; `expired` is `timeToLive < 0` for the live ball and `nearRing` is
      the ring proximity test after the ball has moved. */
  function Frame(s: GameState, right: Controller, left: Controller,
                 prototypeExists: bool, expired: bool, nearRing: bool): (t: GameState)
    ensures s.ballLive ==> t.ballLive
    ensures t.arrow.Loaded? == s.arrow.Loaded?
    ensures t.score == s.score || (t.score == s.score + 10 && !s.isScoring && t.isScoring)
    ensures t.scoreTweens == s.scoreTweens
    ensures t.expiryTweens == s.expiryTweens + (if t.ballLive && expired then 1 else 0)
    ensures t.scoreTimers == s.scoreTimers + (if t.score == s.score + 10 then 1 else 0)
  {
    BallStep(Poll(s, right, left, prototypeExists), expired, nearRing)
  }

  /** The controller loop and the arrow update of onFrame: a controller that
      aims at the launcher with its trigger clicked launches a ball if none is
      live and the prototype exists; a loaded arrow is highlighted when either
      ray hits the launcher. */
  function Poll(s: GameState, right: Controller, left: Controller, prototypeExists: bool): (t: GameState)
    ensures s.ballLive ==> t.ballLive
    ensures t.arrow.Loaded? == s.arrow.Loaded?
    ensures t.(ballLive := s.ballLive, arrow := s.arrow) == s
  {
    s.(ballLive := s.ballLive || Pulls(right, prototypeExists) || Pulls(left, prototypeExists),
       arrow := if s.arrow.Loaded? then Loaded(Aims(right) || Aims(left)) else s.arrow)
  }

  /** The ball step of onFrame: an expired ball gets one more expiry tween;
      otherwise a ball near the ring scores if the gate is open. */
  function BallStep(s: GameState, expired: bool, nearRing: bool): (t: GameState)
    ensures t.ballLive == s.ballLive && t.arrow == s.arrow
    ensures !s.ballLive ==> t == s
    ensures t.score == s.score || (t.score == s.score + 10 && !s.isScoring && t.isScoring)
    ensures t.scoreTweens == s.scoreTweens
    ensures t.expiryTweens == s.expiryTweens + (if s.ballLive && expired then 1 else 0)
    ensures t.scoreTimers == s.scoreTimers + (if t.score == s.score + 10 then 1 else 0)
  {
    if !s.ballLive then s
    else if expired then s.(expiryTweens := s.expiryTweens + 1)
    else if nearRing && !s.isScoring then Hit(s)
    else s
  }

  /** The ring proximity test succeeds with the gate open: the gate closes,
      the score gains ten points, the board is redrawn and the 200 ms timer is
      started. */
  function Hit(s: GameState): (t: GameState)
    ensures t.score == s.score + 10 && t.isScoring
    ensures t.scoreTimers == s.scoreTimers + 1
    ensures t.display == FormatScore(t.score)
    ensures t.(isScoring := s.isScoring, score := s.score, display := s.display,
               scoreTimers := s.scoreTimers) == s
  {
    s.(isScoring := true, score := s.score + 10,
       display := FormatScore(s.score + 10), scoreTimers := s.scoreTimers + 1)
  }

  /** The 200 ms timer started by a hit. It starts the scored tween on the
      current ball; with no live ball, reading the ball's scale throws and no
      tween is started. */
  function ScoreTimerFires(s: GameState): (t: GameState)
    requires s.scoreTimers > 0
    ensures t.scoreTimers == s.scoreTimers - 1
    ensures t.scoreTweens == if s.ballLive then s.scoreTweens + 1 else s.scoreTweens
    ensures t.(scoreTimers := s.scoreTimers, scoreTweens := s.scoreTweens) == s
  {
    s.(scoreTimers := s.scoreTimers - 1,
       scoreTweens := if s.ballLive then s.scoreTweens + 1 else s.scoreTweens)
  }

  /** onComplete of the scored tween: the ball goes and scoring reopens. */
  function ScoredRemoval(s: GameState): (t: GameState)
    requires s.scoreTweens > 0
    ensures !t.ballLive && !t.isScoring
    ensures t.score == s.score && t.display == s.display
    ensures t.scoreTweens == s.scoreTweens - 1
    ensures t.(ballLive := s.ballLive, isScoring := s.isScoring, scoreTweens := s.scoreTweens) == s
  {
    s.(ballLive := false, isScoring := false, scoreTweens := s.scoreTweens - 1)
  }

  /** onComplete of an expiry tween: the ball goes, scoring is untouched. */
  function ExpiryRemoval(s: GameState): (t: GameState)
    requires s.expiryTweens > 0
    ensures !t.ballLive
    ensures t.score == s.score && t.isScoring == s.isScoring && t.display == s.display
    ensures t.expiryTweens == s.expiryTweens - 1
    ensures t.(ballLive := s.ballLive, expiryTweens := s.expiryTweens) == s
  {
    s.(ballLive := false, expiryTweens := s.expiryTweens - 1)
  }

  /** Everything that can happen to the game, in any order the host and the
      timers produce. */
  datatype Event =
    | ArrowLoad
    | Tick(right: Controller, left: Controller, prototypeExists: bool, expired: bool, nearRing: bool)
    | ScoreTimer
    | ScoredDone
    | ExpiryDone

  /** A callback can run only when it has been scheduled; the arrow loads once. */
  predicate Enabled(s: GameState, e: Event) {
    match e
    case ArrowLoad => s.arrow == NotLoaded
    case Tick(_, _, _, _, _) => true
    case ScoreTimer => s.scoreTimers > 0
    case ScoredDone => s.scoreTweens > 0
    case ExpiryDone => s.expiryTweens > 0
  }

  function Apply(s: GameState, e: Event): (t: GameState)
    requires Enabled(s, e)
  {
    match e
    case ArrowLoad => ArrowArrives(s)
    case Tick(r, l, p, x, n) => Frame(s, r, l, p, x, n)
    case ScoreTimer => ScoreTimerFires(s)
    case ScoredDone => ScoredRemoval(s)
    case ExpiryDone => ExpiryRemoval(s)
  }

  /** Runs the enabled events of `evs` in order; one that is not enabled
      cannot happen and is passed over. */
  function Run(s: GameState, evs: seq<Event>): (t: GameState)
    decreases |evs|
  {
    if evs == [] then s
    else Run(if Enabled(s, evs[0]) then Apply(s, evs[0]) else s, evs[1..])
  }

  // ---------------------------------------------------------------------
  // Properties of the specification

  /** A frame launches a ball only when none is live, some controller aims at
      the launcher with its trigger clicked, and the prototype exists; a frame
      never removes a ball. */
  lemma FrameLaunch(s: GameState, right: Controller, left: Controller,
                    prototypeExists: bool, expired: bool, nearRing: bool)
    ensures var t := Frame(s, right, left, prototypeExists, expired, nearRing);
      && (s.ballLive ==> t.ballLive)
      && (!s.ballLive && t.ballLive <==>
            !s.ballLive && prototypeExists &&
            ((Aims(right) && right.triggerClicked) || (Aims(left) && left.triggerClicked)))
  {
  }

  /** Without a live ball and without a launch, a frame changes neither the
      ball, the score nor the scoring gate. */
  lemma FrameWithoutLaunch(s: GameState, right: Controller, left: Controller,
                           prototypeExists: bool, expired: bool, nearRing: bool)
    requires !s.ballLive && !Pulls(right, prototypeExists) && !Pulls(left, prototypeExists)
    ensures var t := Frame(s, right, left, prototypeExists, expired, nearRing);
      !t.ballLive && t.score == s.score && t.isScoring == s.isScoring && t.display == s.display
  {
  }

  /** A frame adds exactly 10 to the score, and closes the gate, when
      the live ball has not expired, reaches the ring and the gate is open;
      otherwise it leaves the score alone. While the gate is closed, a frame
      changes neither the score nor the gate. */
  lemma FrameScoring(s: GameState, right: Controller, left: Controller,
                     prototypeExists: bool, expired: bool, nearRing: bool)
    ensures var t := Frame(s, right, left, prototypeExists, expired, nearRing);
      var hit := t.ballLive && !expired && nearRing && !s.isScoring;
      && (hit ==> t.score == s.score + 10 && t.isScoring)
      && (!hit ==> t.score == s.score && t.isScoring == s.isScoring)
      && (s.isScoring ==> t.score == s.score && t.isScoring)
  {
  }

  /** The arrow is highlighted exactly when at least one controller's ray
      hits the launcher; a frame before the arrow has loaded leaves it alone. */
  lemma FrameArrow(s: GameState, right: Controller, left: Controller,
                   prototypeExists: bool, expired: bool, nearRing: bool)
    ensures var t := Frame(s, right, left, prototypeExists, expired, nearRing);
      && (s.arrow.Loaded? ==> t.arrow == Loaded(Aims(right) || Aims(left)))
      && (s.arrow == NotLoaded ==> t.arrow == NotLoaded)
  {
  }

  lemma InitInv()
    ensures Inv(Init())
  {
  }

  /** Every callback keeps the invariant. */
  lemma ApplyInv(s: GameState, e: Event)
    requires Inv(s) && Enabled(s, e)
    ensures Inv(Apply(s, e))
  {
    match e
    case Tick(r, l, p, x, n) => FrameInv(s, r, l, p, x, n);
    case _ =>
  }

  lemma NextMultiple(x: int, y: int)
    requires x % 10 == 0 && y == x + 10
    ensures y % 10 == 0
  {
  }

  lemma FrameInv(s: GameState, right: Controller, left: Controller,
                 prototypeExists: bool, expired: bool, nearRing: bool)
    requires Inv(s)
    ensures Inv(Frame(s, right, left, prototypeExists, expired, nearRing))
  {
    var s1 := Poll(s, right, left, prototypeExists);
    if s1.ballLive && !expired && nearRing && !s1.isScoring {
      HitInv(s1);
    }
  }

  /** A hit with the gate open keeps the invariant. */
  lemma HitInv(s: GameState)
    requires Inv(s) && !s.isScoring
    ensures Inv(Hit(s))
    ensures Hit(s).scoreTimers + Hit(s).scoreTweens == 1
  {
    var t := Hit(s);
    assert t.score == s.score + 10;
    NextMultiple(s.score, t.score);
  }

  /** Every callback keeps the score or raises it. */
  lemma ApplyScoreGrows(s: GameState, e: Event)
    requires Enabled(s, e)
    ensures Apply(s, e).score >= s.score
  {
  }

  /** In every reachable state the score is a non-negative multiple of ten,
      the board shows it formatted, and a pending scored callback means the
      gate is closed. */
  lemma {:induction false} RunInv(s: GameState, evs: seq<Event>)
    requires Inv(s)
    ensures Inv(Run(s, evs))
    decreases |evs|
  {
    if evs != [] {
      var s' := if Enabled(s, evs[0]) then Apply(s, evs[0]) else s;
      if Enabled(s, evs[0]) {
        ApplyInv(s, evs[0]);
      }
      RunInv(s', evs[1..]);
    }
  }

  /** The score never goes down. */
  lemma {:induction false} RunScoreGrows(s: GameState, evs: seq<Event>)
    ensures Run(s, evs).score >= s.score
    decreases |evs|
  {
    if evs != [] {
      var s' := if Enabled(s, evs[0]) then Apply(s, evs[0]) else s;
      if Enabled(s, evs[0]) {
        ApplyScoreGrows(s, evs[0]);
      }
      RunScoreGrows(s', evs[1..]);
    }
  }

  /** From the start of the game: the score is a non-negative multiple of ten,
      and once it passes 9999 the board stays at "9999". */
  lemma Reachable(evs: seq<Event>)
    ensures var t := Run(Init(), evs);
      && t.score >= 0 && t.score % 10 == 0
      && t.display == FormatScore(t.score)
      && (t.score >= MaxShown ==> t.display == "9999")
  {
    InitInv();
    RunInv(Init(), evs);
    FormatScoreSaturates(Run(Init(), evs).score);
  }

  /** If the expiry tween removes a scoring ball before the 200 ms timer
      fires, the timer finds no ball and starts no scored tween: the gate
      then stays closed with nothing pending that could reopen it, and no
      later frame scores. */
  lemma ScoreTimerWithoutBall(s: GameState)
    requires Inv(s) && s.scoreTimers > 0 && !s.ballLive
    ensures var t := ScoreTimerFires(s);
      && t.isScoring && t.scoreTimers == 0 && t.scoreTweens == 0
      && forall r: Controller, l: Controller, p: bool, x: bool, n: bool ::
           Frame(t, r, l, p, x, n).score == t.score && Frame(t, r, l, p, x, n).isScoring
  {
  }

  /** Once the gate is closed with no 200 ms timer and no scored tween
      pending, it stays closed and the score stays put, whatever happens
      next. */
  lemma {:induction false} GateStaysClosed(s: GameState, evs: seq<Event>)
    requires s.isScoring && s.scoreTimers == 0 && s.scoreTweens == 0
    ensures var t := Run(s, evs);
      t.isScoring && t.scoreTimers == 0 && t.scoreTweens == 0 && t.score == s.score
    decreases |evs|
  {
    if evs != [] {
      var s' := if Enabled(s, evs[0]) then Apply(s, evs[0]) else s;
      GateStaysClosed(s', evs[1..]);
    }
  }

  /** The order of events that leads there: a launch, a later frame in which
      the ball reaches the ring, a frame in which it has expired, the expiry
      tween's onComplete, and only then the 200 ms timer. */
  lemma LostTimerReachable()
    ensures var t := Run(Init(), [Tick(Present(true, true), Absent, true, false, false),
                                   Tick(Absent, Absent, true, false, true),
                                   Tick(Absent, Absent, true, true, false),
                                   ExpiryDone, ScoreTimer]);
      t.isScoring && t.scoreTimers == 0 && t.scoreTweens == 0 && t.score == 10
  {
    var launch := Tick(Present(true, true), Absent, true, false, false);
    var hit := Tick(Absent, Absent, true, false, true);
    var expire := Tick(Absent, Absent, true, true, false);
    var evs := [launch, hit, expire, ExpiryDone, ScoreTimer];
    var s0 := Init();
    var s1 := Frame(s0, Present(true, true), Absent, true, false, false);
    assert s1.ballLive && !s1.isScoring && s1.score == 0 && s1.scoreTimers == 0 && s1.scoreTweens == 0;
    var s2 := Frame(s1, Absent, Absent, true, false, true);
    assert s2.ballLive && s2.isScoring && s2.score == 10 && s2.scoreTimers == 1 && s2.scoreTweens == 0;
    var s3 := Frame(s2, Absent, Absent, true, true, false);
    assert s3.ballLive && s3.expiryTweens == s2.expiryTweens + 1;
    var s4 := ExpiryRemoval(s3);
    var s5 := ScoreTimerFires(s4);
    assert evs[1..] == [hit, expire, ExpiryDone, ScoreTimer];
    assert evs[1..][1..] == [expire, ExpiryDone, ScoreTimer];
    assert evs[1..][1..][1..] == [ExpiryDone, ScoreTimer];
    assert evs[1..][1..][1..][1..] == [ScoreTimer];
    assert Run(s4, [ScoreTimer]) == Run(s5, []);
    assert Run(s3, [ExpiryDone, ScoreTimer]) == Run(s4, [ScoreTimer]);
    assert Run(s2, [expire, ExpiryDone, ScoreTimer]) == Run(s3, [ExpiryDone, ScoreTimer]);
    assert Run(s1, [hit, expire, ExpiryDone, ScoreTimer]) == Run(s2, [expire, ExpiryDone, ScoreTimer]);
    assert Run(s0, evs) == Run(s1, evs[1..]);
  }

  // ---------------------------------------------------------------------
  // The program's state and entry points

  class Game {
    var score: int
    var ballLive: bool
    var isScoring: bool
    var display: string
    var arrow: Arrow
    var expiryTweens: nat
    var scoreTimers: nat
    var scoreTweens: nat

    function Model(): GameState
      reads this
    {
      GameState(score, ballLive, isScoring, display, arrow, expiryTweens, scoreTimers, scoreTweens)
    }

    predicate Valid()
      reads this
    {
      Inv(Model())
    }

    /** Module initialisation (`score = 0`, `ball = null`, `isScoring =
        false`) followed by setupScene's call of updateScoreDisplay. */
    constructor ()
      ensures Model() == Init() && Valid()
    {
      score, ballLive, isScoring := 0, false, false;
      display := "";
      arrow := NotLoaded;
      expiryTweens, scoreTimers, scoreTweens := 0, 0, 0;
      new;
      UpdateScoreDisplay();
      InitInv();
    }

    /** updateScoreDisplay: the board shows the clamped, padded score. */
    method UpdateScoreDisplay()
      modifies this`display
      ensures display == FormatScore(score)
    {
      var clampedScore := if score < 0 then 0 else if score > MaxShown then MaxShown else score;
      display := PadStart(DecimalString(clampedScore), Width, '0');
    }

    /** The arrow loader's callback. */
    method OnArrowLoaded()
      requires Valid() && arrow == NotLoaded
      modifies this`arrow
      ensures Model() == ArrowArrives(old(Model()))
      ensures Valid()
    {
      arrow := Loaded(false);
    }

    /** onFrame: poll both controllers, set the arrow's material, then advance
        the live ball. */
    method OnFrame(right: Controller, left: Controller,
                   prototypeExists: bool, expired: bool, nearRing: bool)
      requires Valid()
      modifies this
      ensures Model() == Frame(old(Model()), right, left, prototypeExists, expired, nearRing)
      ensures Valid()
    {
      var hittingLauncherRight, hittingLauncherLeft := PollControllers(right, left, prototypeExists);
      if hittingLauncherLeft || hittingLauncherRight {
        if arrow.Loaded? {
          arrow := Loaded(true);
        }
      } else {
        if arrow.Loaded? {
          arrow := Loaded(false);
        }
      }
      assert Model() == Poll(old(Model()), right, left, prototypeExists);
      AdvanceBall(expired, nearRing);
      FrameInv(old(Model()), right, left, prototypeExists, expired, nearRing);
    }

    /** The loop of onFrame over controllerConfigs = [right, left]. It
        reports which rays hit the launcher, and launches a ball when a
        controller on the launcher has its trigger clicked, no ball is live
        and the prototype exists. */
    method PollControllers(right: Controller, left: Controller, prototypeExists: bool)
      returns (hittingLauncherRight: bool, hittingLauncherLeft: bool)
      modifies this`ballLive
      ensures hittingLauncherRight == Aims(right) && hittingLauncherLeft == Aims(left)
      ensures ballLive == (old(ballLive) || Pulls(right, prototypeExists) || Pulls(left, prototypeExists))
    {
      var controllerConfigs := [right, left];
      hittingLauncherLeft := false;
      hittingLauncherRight := false;
      for i := 0 to 2
        invariant hittingLauncherRight == (i > 0 && Aims(controllerConfigs[0]))
        invariant hittingLauncherLeft == (i > 1 && Aims(controllerConfigs[1]))
        invariant ballLive == (old(ballLive) || exists j :: 0 <= j < i && Pulls(controllerConfigs[j], prototypeExists))
      {
        var controller := controllerConfigs[i];
        if controller.Present? {
          if controller.rayOnLauncher {
            if i == 1 {
              hittingLauncherLeft := true;
            } else {
              hittingLauncherRight := true;
            }
            if controller.triggerClicked && !ballLive {
              if prototypeExists {
                ballLive := true;
              }
            }
          } else {
            if i == 1 {
              hittingLauncherLeft := false;
            } else {
              hittingLauncherRight := false;
            }
          }
        }
      }
      assert controllerConfigs[0] == right && controllerConfigs[1] == left;
    }

    /** The ball step of onFrame, after the ball has moved. */
    method AdvanceBall(expired: bool, nearRing: bool)
      modifies this
      ensures Model() == BallStep(old(Model()), expired, nearRing)
    {
      if ballLive {
        if expired {
          expiryTweens := expiryTweens + 1;
        } else if nearRing && !isScoring {
          ScoreHit();
        }
      }
    }

    /** The ring proximity branch of onFrame: close the gate, add the
        points, redraw the board and start the 200 ms timer. */
    method ScoreHit()
      modifies this
      ensures Model() == Hit(old(Model()))
    {
      isScoring := true;
      score := score + 10;
      UpdateScoreDisplay();
      scoreTimers := scoreTimers + 1;
    }

    /** The 200 ms timer after a hit. */
    method OnScoreTimer()
      requires Valid() && scoreTimers > 0
      modifies this
      ensures Model() == ScoreTimerFires(old(Model()))
      ensures Valid()
    {
      scoreTimers := scoreTimers - 1;
      if ballLive {
        scoreTweens := scoreTweens + 1;
      }
    }

    /** onComplete of the scored tween. */
    method OnScoredRemoval()
      requires Valid() && scoreTweens > 0
      modifies this
      ensures Model() == ScoredRemoval(old(Model()))
      ensures Valid()
    {
      scoreTweens := scoreTweens - 1;
      ballLive := false;
      isScoring := false;
    }

    /** onComplete of an expiry tween. */
    method OnExpiryRemoval()
      requires Valid() && expiryTweens > 0
      modifies this
      ensures Model() == ExpiryRemoval(old(Model()))
      ensures Valid()
    {
      expiryTweens := expiryTweens - 1;
      ballLive := false;
    }
  }
}
