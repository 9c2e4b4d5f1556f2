/** The rotating header text of rotatingText.js: the options and their defaults, how a text
    is split into animated pieces, the spans `setText` builds, the rotation index, and the
    interval handles `start` and `stop`. */
module RotatingText {
  import opened Strings

  const DefaultInterval := 2500
  const DefaultSplit := "characters"
  const DefaultStagger := 30

  /** The `options` object: `None` for a member that is missing. */
  datatype Options = Options(interval: Option<int>, split: Option<string>, stagger: Option<int>)

  datatype Config = Config(interval: int, split: string, stagger: int)

  /** The configuration of the three options: a missing, zero or empty member takes
      its default. */
  function ConfigOf(o: Options): (c: Config)
    ensures c.interval != 0 && c.split != [] && c.stagger != 0
    ensures c.interval == DefaultInterval || Some(c.interval) == o.interval
    ensures c.split == DefaultSplit || Some(c.split) == o.split
    ensures c.stagger == DefaultStagger || Some(c.stagger) == o.stagger
    ensures o.interval.Some? && o.interval.value != 0 ==> c.interval == o.interval.value
    ensures o.split.Some? && o.split.value != [] ==> c.split == o.split.value
    ensures o.stagger.Some? && o.stagger.value != 0 ==> c.stagger == o.stagger.value
  {
    Config(if o.interval.Some? && o.interval.value != 0 then o.interval.value else DefaultInterval,
           if o.split.Some? && o.split.value != [] then o.split.value else DefaultSplit,
           if o.stagger.Some? && o.stagger.value != 0 then o.stagger.value else DefaultStagger)
  }

  /** With no options at all every default applies. */
  lemma NoOptionsDefaults()
    ensures ConfigOf(Options(None, None, None)) == Config(2500, "characters", 30)
    ensures ConfigOf(Options(Some(0), Some([]), Some(0))) == Config(2500, "characters", 30)
  {
  }

  // ---------------------------------------------------------------------------------------
  // splitText

  datatype Kind = CharPiece | WordPiece | LinePiece | Part

  /** One element of `splitText`'s result. */
  datatype Piece = Piece(text: string, kind: Kind, needsSpace: bool)

  /** The pieces of a split, each but the last followed by a space. */
  function Separated(parts: seq<string>, kind: Kind): seq<Piece> {
    seq(|parts|, i requires 0 <= i < |parts| => Piece(parts[i], kind, i < |parts| - 1))
  }

  /** `splitText(text)` for the configured mode. */
  function SplitText(split: string, text: string): seq<Piece>
    requires split != []
  {
    if split == "characters" then seq(|text|, i requires 0 <= i < |text| => Piece([text[i]], CharPiece, false))
    else if split == "words" then Separated(Split(text, " "), WordPiece)
    else if split == "lines" then Separated(Split(text, "\n"), LinePiece)
    else Separated(Split(text, split), Part)
  }

  function Texts(ps: seq<Piece>): seq<string> {
    seq(|ps|, i requires 0 <= i < |ps| => ps[i].text)
  }

  /** The texts run together. */
  function Concat(parts: seq<string>): string
    decreases |parts|
  {
    if parts == [] then [] else parts[0] + Concat(parts[1..])
  }

  /** The text the pieces show on screen: each piece, with a space after those that need
      one. */
  function Shown(ps: seq<Piece>): string
    decreases |ps|
  {
    if ps == [] then [] else ps[0].text + (if ps[0].needsSpace then " " else "") + Shown(ps[1..])
  }

  /** Character mode gives one piece per character, in order, and shows the text itself. */
  lemma {:induction false} CharactersSpec(text: string)
    ensures var ps := SplitText("characters", text);
            && |ps| == |text|
            && (forall i :: 0 <= i < |ps| ==> ps[i].text == [text[i]] && !ps[i].needsSpace)
            && Shown(ps) == text && Concat(Texts(ps)) == text
    decreases |text|
  {
    var ps := SplitText("characters", text);
    if text != [] {
      CharactersSpec(text[1..]);
      assert ps[1..] == SplitText("characters", text[1..]);
      assert Texts(ps)[1..] == Texts(ps[1..]);
      assert text == [text[0]] + text[1..];
    }
  }

  /** Every piece but the last needs a space, and the spaces shown sit where the
      separators were. */
  lemma {:induction false} SeparatedShown(parts: seq<string>, kind: Kind)
    ensures Texts(Separated(parts, kind)) == parts
    ensures Shown(Separated(parts, kind)) == Join(parts, " ")
    decreases |parts|
  {
    var ps := Separated(parts, kind);
    if |parts| >= 2 {
      SeparatedShown(parts[1..], kind);
      assert ps[1..] == Separated(parts[1..], kind);
      assert Shown(ps) == parts[0] + " " + Shown(ps[1..]);
    } else if |parts| == 1 {
      assert ps[1..] == [];
    }
  }

  /** Word mode shows the text back: the pieces are the `' '`-separated words, and a space
      follows each but the last. */
  lemma WordsRoundTrip(text: string)
    ensures var ps := SplitText("words", text);
            && Texts(ps) == Split(text, " ")
            && (forall i :: 0 <= i < |ps| ==> (ps[i].needsSpace <==> i < |ps| - 1))
            && Shown(ps) == text
  {
    SeparatedShown(Split(text, " "), WordPiece);
    JoinSplit(text, " ");
  }

  /** Line mode and a custom separator split the same way: the pieces joined by the
      separator give back the text, and each break is shown as a space. */
  lemma SeparatorRoundTrip(split: string, text: string)
    requires split != [] && split != "characters" && split != "words"
    ensures var sep := if split == "lines" then "\n" else split;
            var ps := SplitText(split, text);
            && Join(Texts(ps), sep) == text
            && (forall i :: 0 <= i < |ps| ==> (ps[i].needsSpace <==> i < |ps| - 1))
            && Shown(ps) == Join(Split(text, sep), " ")
  {
    var sep := if split == "lines" then "\n" else split;
    var kind := if split == "lines" then LinePiece else Part;
    SeparatedShown(Split(text, sep), kind);
    JoinSplit(text, sep);
  }

  // ---------------------------------------------------------------------------------------
  // setText and next

  datatype Phase = Enter | Exit

  /** A `.text-rotate-element` span: its text, whether it sits in a `.text-rotate-word`
      wrapper followed by a `.text-rotate-space`, its animation class and its
      `animationDelay` in milliseconds. */
  datatype Element = Element(text: string, wrapped: bool, spaced: bool, phase: Phase, delay: real)

  /** The element `setText` builds for the `i`-th piece. */
  function Entering(c: Config, p: Piece, i: nat): Element {
    Element(p.text, c.split != "characters", c.split != "characters" && p.needsSpace, Enter, (i * c.stagger) as real)
  }

  /** A periodic timer: whether it is still set, and whether it also updates the screen
      reader text (only the first one does). */
  datatype Timer = Timer(live: bool, announces: bool)

  /** How many timers are still set. */
  function Live(ts: seq<Timer>): nat
    decreases |ts|
  {
    if ts == [] then 0 else (if ts[|ts| - 1].live then 1 else 0) + Live(ts[..|ts| - 1])
  }

  /** `start()`: one more timer. */
  function Started(ts: seq<Timer>): (r: seq<Timer>)
    ensures Live(r) == Live(ts) + 1
  {
    assert (ts + [Timer(true, false)])[..|ts|] == ts;
    ts + [Timer(true, false)]
  }

  /** `stop()`: `clearInterval` on the one timer the handle names. */
  function Stopped(ts: seq<Timer>, h: nat): seq<Timer>
    requires h < |ts|
  {
    ts[h := ts[h].(live := false)]
  }

  lemma {:induction false} StoppedLive(ts: seq<Timer>, h: nat)
    requires h < |ts|
    ensures Live(Stopped(ts, h)) == Live(ts) - (if ts[h].live then 1 else 0)
    decreases |ts|
  {
    var s := Stopped(ts, h);
    if h == |ts| - 1 {
      assert s[..|s| - 1] == ts[..|ts| - 1];
    } else {
      StoppedLive(ts[..|ts| - 1], h);
      assert s[..|s| - 1] == Stopped(ts[..|ts| - 1], h);
    }
  }

  /** `stop` clears only the timer `start` set last: after two `start`s a `stop` leaves one
      more timer running than before. */
  lemma StopAfterTwoStarts(ts: seq<Timer>)
    ensures Live(Stopped(Started(Started(ts)), |ts| + 1)) == Live(ts) + 1
  {
    StoppedLive(Started(Started(ts)), |ts| + 1);
  }

  /** A rotating text built by `createRotatingText`. */
  class Rotator {
    /** Whether a container element was given. */
    const present: bool
    const texts: seq<string>
    const config: Config
    /** `idx`: the index of the text shown. */
    var idx: nat
    /** The container's `.text-rotate-element` spans. */
    var children: seq<Element>
    /** The screen reader span's text, once it exists. */
    var announced: Option<string>
    var timers: seq<Timer>
    /** `timeoutId`: the timer `stop` clears. */
    var handle: Option<nat>
    /** Whether `createRotatingText` threw (no texts to show). */
    var threw: bool

    predicate Valid()
      reads this
    {
      && config.split != []
      && (texts != [] ==> idx < |texts|)
      && (timers != [] ==> present && texts != [])
      && (threw <==> present && texts == [])
      && (present && texts != [] ==> timers != [])
      && (handle.Some? ==> handle.value < |timers|)
      && (timers != [] ==> timers[0].announces)
      && (forall k :: 1 <= k < |timers| ==> !timers[k].announces)
    }

    /** `createRotatingText(container, texts, options)`: without a container nothing is
        built; otherwise the screen reader span gets the first text, the first text is
        shown, and the announcing timer is set. An empty `texts` throws in `setText`. */
    constructor (container: bool, ts: seq<string>, o: Options)
      ensures Valid()
      ensures present == container && texts == ts && config == ConfigOf(o) && idx == 0
      ensures !container ==> children == [] && announced == None && timers == [] && handle == None && !threw
      ensures container && ts == [] ==> threw && timers == [] && handle == None
      ensures container && ts != [] ==>
                && !threw && announced == Some(ts[0])
                && children == seq(|SplitText(ConfigOf(o).split, ts[0])|,
                                   i requires 0 <= i < |SplitText(ConfigOf(o).split, ts[0])| =>
                                     Entering(ConfigOf(o), SplitText(ConfigOf(o).split, ts[0])[i], i))
                && timers == [Timer(true, true)] && handle == Some(0)
    {
      present := container;
      texts := ts;
      config := ConfigOf(o);
      idx := 0;
      children := [];
      announced := None;
      timers := [];
      handle := None;
      threw := false;
      new;
      if !container {
        return;
      }
      if ts == [] {
        threw := true;
        return;
      }
      announced := Some(ts[0]);
      SetText(ts[0]);
      timers := [Timer(true, true)];
      handle := Some(0);
    }

    /** `setText(text)`: the container is emptied and one element appended per piece, the
        `i`-th entering after `i * stagger` milliseconds. */
    method SetText(text: string)
      requires config.split != []
      modifies this`children
      ensures var ps := SplitText(config.split, text);
              && |children| == |ps|
              && forall i :: 0 <= i < |ps| ==> children[i] == Entering(config, ps[i], i)
    {
      var elements := SplitText(config.split, text);
      children := [];
      for i := 0 to |elements|
        invariant |children| == i
        invariant forall k :: 0 <= k < i ==> children[k] == Entering(config, elements[k], k)
      {
        children := children + [Entering(config, elements[i], i)];
      }
    }

    /** The first half of `next()`: every element switches to its exit animation, the
        `i`-th after `i * stagger / 2` milliseconds. */
    method ExitAll()
      modifies this`children
      ensures |children| == |old(children)|
      ensures forall i :: 0 <= i < |children| ==>
                children[i] == old(children[i]).(phase := Exit, delay := i as real * (config.stagger as real / 2.0))
    {
      var i := 0;
      while i < |children|
        invariant 0 <= i <= |children| == |old(children)|
        invariant forall k :: 0 <= k < i ==>
                    children[k] == old(children[k]).(phase := Exit, delay := k as real * (config.stagger as real / 2.0))
        invariant forall k :: i <= k < |children| ==> children[k] == old(children[k])
      {
        children := children[i := children[i].(phase := Exit, delay := i as real * (config.stagger as real / 2.0))];
        i := i + 1;
      }
    }

    /** Timer `k` fires: the first timer also announces the text about to appear; then
        `next()` runs, its timeout included. The index moves on by one, wrapping to 0,
        and the new text is shown. */
    method Tick(k: nat)
      requires Valid() && k < |timers| && timers[k].live
      modifies this`idx, this`children, this`announced
      ensures Valid()
      ensures idx == (old(idx) + 1) % |texts| && idx < |texts|
      ensures timers[k].announces ==> announced == Some(texts[idx])
      ensures !timers[k].announces ==> announced == old(announced)
      ensures var ps := SplitText(config.split, texts[idx]);
              && |children| == |ps|
              && forall i :: 0 <= i < |ps| ==> children[i] == Entering(config, ps[i], i)
    {
      if timers[k].announces {
        announced := Some(texts[(idx + 1) % |texts|]);
      }
      ExitAll();
      idx := (idx + 1) % |texts|;
      SetText(texts[idx]);
    }

    /** The `start` handle: another timer, running `next` only, which the handle now
        names; a no-op without a container. */
    method Start()
      requires Valid() && !threw
      modifies this`timers, this`handle
      ensures Valid()
      ensures present ==> timers == Started(old(timers)) && handle == Some(|old(timers)|)
      ensures !present ==> timers == old(timers) && handle == old(handle)
    {
      if !present {
        return;
      }
      timers := Started(timers);
      handle := Some(|timers| - 1);
    }

    /** The `stop` handle: clears the timer the handle names; a no-op without a
        container. */
    method Stop()
      requires Valid()
      modifies this`timers
      ensures Valid()
      ensures present && handle.Some? ==> timers == Stopped(old(timers), handle.value)
      ensures !(present && handle.Some?) ==> timers == old(timers)
    {
      if !present || handle.None? {
        return;
      }
      timers := Stopped(timers, handle.value);
    }
  }
}
