/** The guided cooking session of `components/cooking-interface.tsx`: step
  * gating, the elapsed-time counter, the photo view and the finish buttons.
  *
  * `Session` is a snapshot of the component's six state variables; the
  * functions on it say what each handler does, and the lemmas what follows
  * from several of them. The class `CookingInterface` holds the same state
  * in fields and its methods are tied to those functions. */
module Cooking {
  import opened Wrappers
  import opened Text
  import opened Recipes

  /** An uploaded image; only its presence and its name are modelled. */
  datatype Photo = Photo(name: string)

  datatype Session = Session(
    currentStep: nat,
    completed: seq<bool>,
    timer: nat,
    running: bool,
    photoView: bool,
    photo: Option<Photo>)

  /** Number of `true` entries: `completedSteps.filter(Boolean).length`. */
  function CountTrue(c: seq<bool>): (n: nat)
    ensures n <= |c|
    ensures n == |c| <==> forall i :: 0 <= i < |c| ==> c[i]
    ensures n == 0 <==> forall i :: 0 <= i < |c| ==> !c[i]
  {
    if c == [] then 0
    else
      var n := (if c[0] then 1 else 0) + CountTrue(c[1..]);
      assert forall i :: 0 < i < |c| ==> c[i] == c[1..][i - 1];
      n
  }

  /** Setting one slot to `true` adds one to the count exactly when the slot
    * was `false`. */
  lemma {:induction false} CountTrueSet(c: seq<bool>, i: nat)
    requires i < |c|
    ensures CountTrue(c[i := true]) == CountTrue(c) + (if c[i] then 0 else 1)
  {
    if i == 0 {
      assert c[i := true][1..] == c[1..];
    } else {
      assert c[i := true][1..] == c[1..][i - 1 := true];
      CountTrueSet(c[1..], i - 1);
    }
  }

  /** The state a freshly mounted component starts in. */
  function Initial(stepCount: nat): (s: Session)
    ensures |s.completed| == stepCount && CountTrue(s.completed) == 0
    ensures OnTrack(s) && !s.photoView && s.currentStep == 0
    ensures s.timer == 0 && !s.running && s.photo == None
  {
    Session(0, seq(stepCount, _ => false), 0, false, false, None)
  }

  /** The shape every session reached through the "Mark as Complete" buttons
    * has: in the step view exactly the steps before `currentStep` are done;
    * in the photo view every step is done and `currentStep` is the last. */
  predicate OnTrack(s: Session) {
    var n := |s.completed|;
    if s.photoView then
      && n > 0 && s.currentStep == n - 1
      && forall j :: 0 <= j < n ==> s.completed[j]
    else
      && (if n == 0 then s.currentStep == 0 else s.currentStep < n)
      && forall j :: 0 <= j < n ==> (s.completed[j] <==> j < s.currentStep)
  }

  // ---------------------------------------------------------------- timer

  /** One interval callback: `setTimer(prev => prev + 1)`, which only fires
    * while the timer runs. */
  function Ticked(s: Session): (t: Session)
    ensures t.timer == if s.running then s.timer + 1 else s.timer
    ensures t == s.(timer := t.timer)
  {
    if s.running then s.(timer := s.timer + 1) else s
  }

  /** `n` interval callbacks in a row. */
  function TickedN(s: Session, n: nat): Session {
    if n == 0 then s else Ticked(TickedN(s, n - 1))
  }

  /** While running, `n` ticks add exactly `n` seconds; while stopped they do
    * nothing; nothing but the timer changes. */
  lemma {:induction false} TickedNAdds(s: Session, n: nat)
    ensures TickedN(s, n) == s.(timer := s.timer + if s.running then n else 0)
  {
    if n > 0 {
      TickedNAdds(s, n - 1);
    }
  }

  /** The play/pause button: `setIsTimerRunning(!isTimerRunning)`. */
  function Toggled(s: Session): (t: Session)
    ensures t.running != s.running
    ensures t == s.(running := t.running)
  {
    s.(running := !s.running)
  }

  /** Play/pause twice is no change at all. */
  lemma ToggledTwice(s: Session)
    ensures Toggled(Toggled(s)) == s
  {
  }

  /** The reset button: timer back to zero and stopped. */
  function Reset(s: Session): (t: Session)
    ensures t.timer == 0 && !t.running
    ensures t.currentStep == s.currentStep && t.completed == s.completed
    ensures t.photoView == s.photoView && t.photo == s.photo
  {
    s.(timer := 0, running := false)
  }

  /** Reset reaches the same state whatever the timer did before it, and a
    * reset timer stays at zero however many ticks arrive. */
  lemma ResetForgetsTimer(s: Session, n: nat)
    ensures Reset(TickedN(s, n)) == Reset(s)
    ensures Reset(Toggled(s)) == Reset(s)
    ensures TickedN(Reset(s), n) == Reset(s)
  {
    TickedNAdds(s, n);
    TickedNAdds(Reset(s), n);
  }

  // ---------------------------------------------------------------- steps

  /** `handleStepComplete(stepIndex)`: mark the step done; after the last
    * step switch to the photo view and stop the timer, otherwise move on to
    * the next step. */
  function StepCompleted(s: Session, i: nat): (t: Session)
    requires i < |s.completed|
    ensures |t.completed| == |s.completed| && t.completed[i]
    ensures forall j :: 0 <= j < |s.completed| && j != i ==> t.completed[j] == s.completed[j]
    ensures i == |s.completed| - 1 ==>
              t.photoView && !t.running && t.currentStep == s.currentStep
    ensures i < |s.completed| - 1 ==>
              t.currentStep == i + 1 && t.photoView == s.photoView && t.running == s.running
    ensures t.timer == s.timer && t.photo == s.photo
    ensures CountTrue(t.completed) == CountTrue(s.completed) + (if s.completed[i] then 0 else 1)
  {
    CountTrueSet(s.completed, i);
    var done := s.completed[i := true];
    if i == |s.completed| - 1 then s.(completed := done, photoView := true, running := false)
    else s.(completed := done, currentStep := i + 1)
  }

  /** The "Mark as Complete" button of step `i` is shown: the step list is on
    * screen, `i` is the current step and it is not yet done. */
  predicate Offered(s: Session, i: nat): (b: bool)
    ensures b ==> CountTrue(s.completed) < |s.completed|
    ensures OnTrack(s) ==> (b <==> !s.photoView && i == s.currentStep && i < |s.completed|)
  {
    !s.photoView && i < |s.completed| && i == s.currentStep && !s.completed[i]
  }

  /** A click on step `i`'s button: only an offered button does anything. */
  function Pressed(s: Session, i: nat): (t: Session)
    ensures !Offered(s, i) ==> t == s
    ensures Offered(s, i) ==> t == StepCompleted(s, i)
    ensures CountTrue(t.completed) >= CountTrue(s.completed)
  {
    if Offered(s, i) then StepCompleted(s, i) else s
  }

  /** The buttons keep a session on track. */
  lemma PressedKeepsOnTrack(s: Session, i: nat)
    requires OnTrack(s)
    ensures OnTrack(Pressed(s, i))
  {
    if Offered(s, i) {
      var t := StepCompleted(s, i);
      var n := |s.completed|;
      if i < n - 1 {
        assert forall j :: 0 <= j < n ==> (t.completed[j] <==> j < t.currentStep);
      }
    }
  }

  /** Clicking the buttons of steps `0 .. k-1` in that order. */
  function CookSteps(s: Session, k: nat): Session {
    if k == 0 then s else Pressed(CookSteps(s, k - 1), k - 1)
  }

  /** From a session with no step done, clicking through the first `k` steps
    * completes exactly those, and clicking through all of them reaches the
    * photo view with every step done and the timer stopped. */
  lemma {:induction false} CookStepsInOrder(s: Session, k: nat)
    requires OnTrack(s) && !s.photoView && s.currentStep == 0
    requires 0 < |s.completed| && k <= |s.completed|
    ensures var t := CookSteps(s, k);
      && OnTrack(t) && |t.completed| == |s.completed|
      && CountTrue(t.completed) == k
      && t.timer == s.timer && t.photo == s.photo
      && (k < |s.completed| ==> !t.photoView && t.currentStep == k && t.running == s.running)
      && (k == |s.completed| ==> t.photoView && !t.running)
  {
    if k == 0 {
      assert CountTrue(s.completed) == 0;
    } else {
      CookStepsInOrder(s, k - 1);
      var p := CookSteps(s, k - 1);
      assert Offered(p, k - 1);
      PressedKeepsOnTrack(p, k - 1);
    }
  }

  // ---------------------------------------------------------------- progress

  /** Progress as a completed-count over a step-count. */
  datatype Ratio = Ratio(done: nat, total: nat)

  /** `progress`: completed steps over all steps. */
  function Progress(s: Session): (p: Ratio)
    ensures p.total == |s.completed| && p.done <= p.total
    ensures p.done == p.total <==> forall j :: 0 <= j < |s.completed| ==> s.completed[j]
  {
    Ratio(CountTrue(s.completed), |s.completed|)
  }

  /** The percentage the progress bar shows, as an exact fraction. A recipe
    * without steps has no percentage (the source computes NaN). */
  function Percent(p: Ratio): (r: real)
    requires 0 < p.total && p.done <= p.total
    ensures 0.0 <= r <= 100.0
    ensures r == 100.0 <==> p.done == p.total
  {
    var f := (p.done as real) / (p.total as real);
    assert f <= 1.0 && (f == 1.0 <==> p.done == p.total) by {
      assert f * (p.total as real) == p.done as real;
    }
    f * 100.0
  }

  /** Progress never falls when a button is clicked, and clicking through all
    * steps brings it to 100%. */
  lemma ProgressReachesFull(s: Session)
    requires OnTrack(s) && !s.photoView && s.currentStep == 0 && 0 < |s.completed|
    ensures Progress(CookSteps(s, |s.completed|)) == Ratio(|s.completed|, |s.completed|)
    ensures Percent(Progress(CookSteps(s, |s.completed|))) == 100.0
    ensures forall i: nat :: Progress(Pressed(s, i)).done >= Progress(s).done
  {
    CookStepsInOrder(s, |s.completed|);
  }

  // ---------------------------------------------------------------- photo

  /** `handlePhotoUpload`: a chosen file replaces the stored one; an empty
    * selection keeps it. */
  function Uploaded(s: Session, file: Option<Photo>): (t: Session)
    ensures t.photo == if file.Some? then file else s.photo
    ensures t == s.(photo := t.photo)
  {
    if file.Some? then s.(photo := file) else s
  }

  /** The photo view has no timer buttons and is entered with the timer
    * stopped, so there the elapsed time shown stays fixed: no tick and no
    * upload moves it. */
  lemma PhotoViewFreezesTimer(s: Session, n: nat, file: Option<Photo>)
    requires s.photoView && !s.running
    ensures TickedN(s, n) == s
    ensures TickedN(Uploaded(s, file), n).timer == s.timer
  {
    TickedNAdds(s, n);
    TickedNAdds(Uploaded(s, file), n);
  }

  /** Only the last chosen file is kept. */
  lemma UploadedLastWins(s: Session, first: Photo, second: Option<Photo>)
    ensures Uploaded(Uploaded(s, Some(first)), second).photo
            == (if second.Some? then second else Some(first))
  {
  }

  // ---------------------------------------------------------------- display

  /** `formatTime`: minutes and seconds, each padded to two digits with `0`;
    * minutes past 99 are written out in full. Whatever the input, the clock
    * is at least `MM:SS` wide and its colon sits before two last digits. */
  function FormatTime(seconds: nat): (r: string)
    ensures |r| >= 5 && r[|r| - 3] == ':'
  {
    var mins := seconds / 60;
    var secs := seconds % 60;
    Clock(PadStart(Digits(mins), 2, '0'), PadStart(Digits(secs), 2, '0'))
  }

  /** `m:cc`: the minutes field is everything before the last three
    * characters and the seconds field the last two. */
  function Clock(m: string, c: string): (r: string)
    requires |c| == 2
    ensures |r| == |m| + 3 && r[|m|] == ':'
    ensures r[..|r| - 3] == m && r[|r| - 2..] == c
  {
    var r := m + ":" + c;
    assert r[..|m|] == m;
    assert r[|m| + 1..] == c;
    r
  }

  /** Everything before the colon of an `m:cc` clock. */
  function MinutesField(r: string): string
    requires |r| >= 3
  {
    r[..|r| - 3]
  }

  /** The two characters after the colon of an `m:cc` clock. */
  function SecondsField(r: string): string
    requires |r| >= 3
  {
    r[|r| - 2..]
  }

  /** Reading the two fields of `FormatTime(s)` back as numbers gives minutes
    * and seconds that recompose `s`, with the seconds field below 60. */
  lemma FormatTimeRoundTrip(seconds: nat)
    ensures var r := FormatTime(seconds);
      && AllDigits(MinutesField(r)) && AllDigits(SecondsField(r))
      && Value(SecondsField(r)) < 60
      && Value(MinutesField(r)) * 60 + Value(SecondsField(r)) == seconds
  {
    var mins, secs := seconds / 60, seconds % 60;
    FormatTimeShape(seconds);
    PaddedValue(mins);
    PaddedValue(secs);
  }

  /** The clock is exactly `MM:SS` (five characters) below 100 minutes, and
    * wider from then on. */
  lemma FormatTimeWidth(seconds: nat)
    ensures seconds < 6000 <==> |FormatTime(seconds)| == 5
  {
    var mins := seconds / 60;
    var m := PadStart(Digits(mins), 2, '0');
    FormatTimeShape(seconds);
    assert |m| == 2 <==> |Digits(mins)| <= 2;
    assert seconds < 6000 <==> mins < 100;
  }

  lemma FormatTimeShape(seconds: nat)
    ensures var c := PadStart(Digits(seconds % 60), 2, '0');
      && |c| == 2
      && FormatTime(seconds) == Clock(PadStart(Digits(seconds / 60), 2, '0'), c)
  {
  }

  /** Padding a number's digits to two places keeps its value. */
  lemma PaddedValue(n: nat)
    ensures AllDigits(PadStart(Digits(n), 2, '0'))
    ensures Value(PadStart(Digits(n), 2, '0')) == n
  {
    var d := Digits(n);
    DigitsRoundTrip(n);
    if |d| < 2 {
      assert PadStart(d, 2, '0') == ['0'] + d;
      LeadingZero(d);
    }
  }

  // ---------------------------------------------------------------- component

  /** Which photo-view button was clicked. */
  datatype FinishButton = SkipPhoto | CompleteCooking

  /** The component: the recipe it was mounted with and its state variables. */
  class CookingInterface {
    const recipe: Recipe
    var currentStep: nat
    var completedSteps: seq<bool>
    var timer: nat
    var isTimerRunning: bool
    var showPhotoUpload: bool
    var uploadedPhoto: Option<Photo>

    ghost function State(): Session
      reads this
    {
      Session(currentStep, completedSteps, timer, isTimerRunning, showPhotoUpload, uploadedPhoto)
    }

    /** One completion flag per step of the recipe, and the timer stopped
      * once the photo view is on. */
    ghost predicate Valid()
      reads this
    {
      && |completedSteps| == |recipe.steps|
      && (showPhotoUpload ==> !isTimerRunning)
    }

    /** Mounting: step 0, no step done, timer at 0 and stopped, no photo. */
    constructor (recipe: Recipe)
      ensures this.recipe == recipe && Valid()
      ensures currentStep == 0 && completedSteps == seq(|recipe.steps|, _ => false)
      ensures timer == 0 && !isTimerRunning && !showPhotoUpload && uploadedPhoto == None
      ensures State() == Initial(|recipe.steps|)
    {
      this.recipe := recipe;
      currentStep := 0;
      completedSteps := seq(|recipe.steps|, _ => false);
      timer := 0;
      isTimerRunning := false;
      showPhotoUpload := false;
      uploadedPhoto := None;
    }

    /** The interval callback, delivered once a second while the timer runs. */
    method Tick()
      requires Valid()
      modifies this
      ensures Valid() && State() == Ticked(old(State()))
      ensures showPhotoUpload ==> timer == old(timer)
    {
      if isTimerRunning {
        timer := timer + 1;
      }
    }

    /** The play/pause button, shown only in the step view. */
    method PlayPause()
      requires Valid() && !showPhotoUpload
      modifies this
      ensures Valid() && State() == Toggled(old(State()))
    {
      isTimerRunning := !isTimerRunning;
    }

    /** The reset button, shown only in the step view. */
    method ResetTimer()
      requires Valid() && !showPhotoUpload
      modifies this
      ensures Valid() && State() == Reset(old(State()))
    {
      timer := 0;
      isTimerRunning := false;
    }

    /** The handler itself, for any step of the recipe. */
    method HandleStepComplete(stepIndex: nat)
      requires Valid() && stepIndex < |completedSteps|
      modifies this
      ensures Valid() && State() == StepCompleted(old(State()), stepIndex)
    {
      completedSteps := completedSteps[stepIndex := true];
      if stepIndex == |recipe.steps| - 1 {
        showPhotoUpload := true;
        isTimerRunning := false;
      } else {
        currentStep := stepIndex + 1;
      }
    }

    /** A click on step `index`'s "Mark as Complete" button, which exists only
      * while it is offered. */
    method MarkComplete(index: nat)
      requires Valid()
      modifies this
      ensures Valid() && State() == Pressed(old(State()), index)
      ensures OnTrack(old(State())) ==> OnTrack(State())
    {
      if OnTrack(State()) {
        PressedKeepsOnTrack(State(), index);
      }
      if !showPhotoUpload && index < |completedSteps| && index == currentStep
         && !completedSteps[index] {
        HandleStepComplete(index);
      }
    }

    /** The file input's change event, with the first selected file if any. */
    method HandlePhotoUpload(file: Option<Photo>)
      requires Valid()
      modifies this
      ensures Valid() && State() == Uploaded(old(State()), file)
    {
      if file.Some? {
        uploadedPhoto := file;
      }
    }

    /** `handleFinishCooking`: hands the stored photo, or none, to the
      * dashboard's completion handler. */
    method HandleFinishCooking() returns (photo: Option<Photo>)
      ensures photo == uploadedPhoto
    {
      photo := uploadedPhoto;
    }

    /** A click on a photo-view button: "Skip Photo" always finishes, while
      * "Complete Cooking" is disabled until a photo is stored. `None` means
      * nothing happened; `Some(p)` that the session finished handing over `p`. */
    method PressFinish(button: FinishButton) returns (sent: Option<Option<Photo>>)
      requires showPhotoUpload
      ensures sent.None? <==> button == CompleteCooking && uploadedPhoto.None?
      ensures sent.Some? ==> sent.value == uploadedPhoto
    {
      if button == CompleteCooking && uploadedPhoto.None? {
        sent := None;
      } else {
        var photo := HandleFinishCooking();
        sent := Some(photo);
      }
    }
  }
}
