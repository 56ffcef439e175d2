/**
 * The collapsible container: an animated height that moves between
 * ALMOST_ZERO (collapsed) and the measured content height (expanded).
 *
 * The host animation library appears only through the calls the component
 * makes on it, which are recorded in the ghost log `calls`: `Start` for
 * `Animated.timing(height, {toValue, duration, easing}).start(callback)`
 * (with the value `start` returned, which the component keeps as its
 * animation handle) and `Stop` for `handle.stop()`. The completion callback
 * is the event method `OnAnimationEnd`; a layout pass is `OnLayout`.
 */
module CollapsibleComponent {
  import opened Wrappers
  import opened EasingResolver

  /** The height used instead of 0 for the collapsed state. */
  const ALMOST_ZERO: real := 0.00000001

  const DEFAULT_ALIGN: string := "top"
  const DEFAULT_COLLAPSED: bool := true
  const DEFAULT_DURATION: real := 300.0
  const DEFAULT_EASING: string := "easeOutCubic"

  /** The options a collapsible is rendered with (defaults already applied). */
  datatype Props<V> = Props(align: string, collapsed: bool, duration: real, easing: EasingSpec<V>)

  /** The options as given (`None` for one left undefined), with the default of each missing one. */
  function WithDefaults<V>(align: Option<string>, collapsed: Option<bool>, duration: Option<real>,
                           easing: Option<EasingSpec<V>>): (p: Props<V>)
    ensures align.Some? ==> p.align == align.value
    ensures collapsed.Some? ==> p.collapsed == collapsed.value
    ensures duration.Some? ==> p.duration == duration.value
    ensures easing.Some? ==> p.easing == easing.value
    ensures align.None? ==> p.align == "top" && ContentTransform(p.align, 0.0).None?
    ensures collapsed.None? ==> p.collapsed && PointerEvents(p.collapsed) == "none"
    ensures duration.None? ==> p.duration == 300.0
    ensures easing.None? ==> p.easing == Named("easeOutCubic")
  {
    Props(if align.Some? then align.value else DEFAULT_ALIGN,
          if collapsed.Some? then collapsed.value else DEFAULT_COLLAPSED,
          if duration.Some? then duration.value else DEFAULT_DURATION,
          if easing.Some? then easing.value else Named(DEFAULT_EASING))
  }

  /** Without an `easing` option, the component animates with the "cubic" curve in direction "out". */
  lemma DefaultEasingDecodes<V>(align: Option<string>, collapsed: Option<bool>, duration: Option<real>)
    ensures var p := WithDefaults<V>(align, collapsed, duration, None);
            p.easing.Named? && Decode(p.easing.name) == Composite("out", "cubic")
  {
    DecodeOutCubic();
  }

  /** A call the component makes on the host animation library. */
  datatype HostCall<V, H> =
    | Start(toValue: real, duration: real, easing: V, returned: Option<H>)
    | Stop(handle: H)

  /**
   * The call log is a sequence of starts, where every start that returned a
   * handle is stopped immediately before the next start, and every stop
   * is of the handle the start just before it returned.
   */
  ghost predicate StartsAndStops<V, H>(calls: seq<HostCall<V, H>>)
  {
    && (calls != [] ==> calls[|calls| - 1].Start?)
    && (forall i :: 0 <= i < |calls| - 1 && calls[i].Start? && calls[i].returned.Some? ==>
          calls[i + 1] == Stop(calls[i].returned.value))
    && (forall i :: 0 <= i < |calls| && calls[i].Stop? ==>
          0 < i && calls[i - 1].Start? && calls[i - 1].returned == Some(calls[i].handle))
  }

  /** The handle returned by the most recent start, if any. */
  ghost function LastHandle<V, H>(calls: seq<HostCall<V, H>>): Option<H>
  {
    if calls != [] && calls[|calls| - 1].Start? then calls[|calls| - 1].returned else None
  }

  /** The stop issued for a stored handle before a new start. */
  function StopPrior<V, H>(animation: Option<H>): seq<HostCall<V, H>>
  {
    if animation.Some? then [Stop(animation.value)] else []
  }

  class Collapsible<V, H> {
    var props: Props<V>
    /** The value the Animated.Value in state was created with. */
    var height: real
    var contentHeight: real
    var animating: bool
    /** What the last `start` returned. */
    var animation: Option<H>

    const registry: map<string, V>
    const apply: Apply<V>

    ghost var calls: seq<HostCall<V, H>>

    ghost predicate Valid()
      reads this
    {
      && (height == ALMOST_ZERO || height == contentHeight)
      && StartsAndStops(calls)
      && animation == LastHandle(calls)
    }

    constructor (props: Props<V>, registry: map<string, V>, apply: Apply<V>)
      ensures Valid()
      ensures this.props == props && this.registry == registry && this.apply == apply
      ensures height == ALMOST_ZERO && contentHeight == 0.0 && !animating
      ensures animation == None && calls == []
    {
      this.props := props;
      this.registry := registry;
      this.apply := apply;
      height := ALMOST_ZERO;
      contentHeight := 0.0;
      animating := false;
      animation := None;
      calls := [];
    }

    /**
     * Animates towards the collapsed (ALMOST_ZERO) or expanded (content
     * height) target with the current `easing` and `duration`. An easing that
     * does not resolve fails before anything changes. `returned` is what the
     * host `start` call gives back.
     */
    method ToggleCollapsed(collapsed: bool, returned: Option<H>) returns (err: Option<EasingError>)
      requires Valid()
      modifies this
      ensures Valid()
      ensures var resolved := Resolve(old(props.easing), registry, apply);
        if resolved.Err? then
          err == Some(resolved.error) && unchanged(this)
        else
          && err == None
          && animating && animation == returned
          && calls == old(calls) + StopPrior(old(animation))
                      + [Start(if collapsed then ALMOST_ZERO else old(contentHeight),
                               old(props.duration), resolved.value, returned)]
          && props == old(props) && height == old(height) && contentHeight == old(contentHeight)
    {
      var target := if collapsed then ALMOST_ZERO else contentHeight;
      var resolved := ResolveEasing(props.easing, registry, apply);
      if resolved.Err? {
        return Some(resolved.error);
      }
      ghost var before := calls;
      if animation.Some? {
        calls := calls + [Stop(animation.value)];
      }
      animating := true;
      calls := calls + [Start(target, props.duration, resolved.value, returned)];
      animation := returned;
      err := None;
      StartsAndStopsExtend(before, StopPrior(old(animation)), Start(target, props.duration, resolved.value, returned));
    }

    /**
     * New options arrive. The animation starts only when `collapsed` changes,
     * and it uses the options in force before the change (the new ones are
     * installed afterwards); a failing easing leaves the component as it was.
     */
    method ReceiveProps(next: Props<V>, returned: Option<H>) returns (err: Option<EasingError>)
      requires Valid()
      modifies this
      ensures Valid()
      ensures next.collapsed == old(props.collapsed) ==>
        && err == None && props == next
        && calls == old(calls) && animating == old(animating) && animation == old(animation)
        && height == old(height) && contentHeight == old(contentHeight)
      ensures next.collapsed != old(props.collapsed) ==>
        var resolved := Resolve(old(props.easing), registry, apply);
        if resolved.Err? then
          err == Some(resolved.error) && unchanged(this)
        else
          && err == None && props == next
          && animating && animation == returned
          && calls == old(calls) + StopPrior(old(animation))
                      + [Start(if next.collapsed then ALMOST_ZERO else old(contentHeight),
                               old(props.duration), resolved.value, returned)]
          && height == old(height) && contentHeight == old(contentHeight)
    {
      if next.collapsed != props.collapsed {
        err := ToggleCollapsed(next.collapsed, returned);
        if err.Some? {
          return;
        }
      } else {
        err := None;
      }
      props := next;
    }

    /** The completion callback: it clears `animating` whatever the event says. */
    method OnAnimationEnd(finished: bool)
      requires Valid()
      modifies this`animating
      ensures Valid() && !animating
    {
      animating := false;
    }

    /** Whether the content wrapper has its layout listener attached this render. */
    predicate ListensToLayout()
      reads this
    {
      !animating
    }

    /** The measured content height replaces the old one and reseeds the height without animating. */
    method HandleLayoutChange(measured: real)
      requires Valid()
      modifies this`height, this`contentHeight
      ensures Valid()
      ensures contentHeight == measured
      ensures height == if props.collapsed then ALMOST_ZERO else measured
    {
      contentHeight := measured;
      height := if props.collapsed then ALMOST_ZERO else measured;
    }

    /** A layout pass of the content: delivered only while the listener is attached. */
    method OnLayout(measured: real)
      requires Valid()
      modifies this`height, this`contentHeight
      ensures Valid()
      ensures old(animating) ==> height == old(height) && contentHeight == old(contentHeight)
      ensures !old(animating) ==>
        contentHeight == measured && height == (if props.collapsed then ALMOST_ZERO else measured)
    {
      if ListensToLayout() {
        HandleLayoutChange(measured);
      }
    }
  }

  lemma StartsAndStopsExtend<V, H>(calls: seq<HostCall<V, H>>, stop: seq<HostCall<V, H>>, start: HostCall<V, H>)
    requires StartsAndStops(calls)
    requires start.Start?
    requires stop == StopPrior(LastHandle(calls))
    ensures StartsAndStops(calls + stop + [start])
    ensures LastHandle(calls + stop + [start]) == start.returned
  {
    var c := calls + stop + [start];
    forall i | 0 <= i < |c| - 1 && c[i].Start? && c[i].returned.Some?
      ensures c[i + 1] == Stop(c[i].returned.value)
    {
      if i < |calls| - 1 {
        assert c[i] == calls[i] && c[i + 1] == calls[i + 1];
      } else {
        assert i == |calls| - 1;
        assert c[i] == calls[|calls| - 1];
      }
    }
    forall i | 0 <= i < |c| && c[i].Stop?
      ensures 0 < i && c[i - 1].Start? && c[i - 1].returned == Some(c[i].handle)
    {
      if i < |calls| {
        assert c[i] == calls[i];
      }
    }
  }

  // -----------------------------------------------------------------------
  // What a render selects from the state

  /** The `pointerEvents` of the outer view. */
  function PointerEvents(collapsed: bool): (r: string)
    ensures r == "none" <==> collapsed
    ensures r == "auto" <==> !collapsed
  {
    if collapsed then "none" else "auto"
  }

  /** The `inputRange` and `outputRange` handed to `height.interpolate`. */
  datatype Interpolation = Interpolation(inputLo: real, inputHi: real, outputLo: real, outputHi: real)

  /** The translateY transform of the content wrapper, if any. */
  function ContentTransform(align: string, contentHeight: real): (r: Option<Interpolation>)
    ensures r.None? <==> align != "center" && align != "bottom"
    ensures r.Some? ==> r.value.inputLo == 0.0 && r.value.inputHi == contentHeight && r.value.outputHi == 0.0
    ensures align == "center" ==> r.Some? && r.value.outputLo == -contentHeight / 2.0
    ensures align == "bottom" ==> r.Some? && r.value.outputLo == -contentHeight
  {
    if align == "center" then Some(Interpolation(0.0, contentHeight, contentHeight / -2.0, 0.0))
    else if align == "bottom" then Some(Interpolation(0.0, contentHeight, -contentHeight, 0.0))
    else None
  }

  /** Linear interpolation over a range pair, as the host computes it inside the input range. */
  function Lerp(i: Interpolation, x: real): real
    requires i.inputLo != i.inputHi
  {
    i.outputLo + (x - i.inputLo) * (i.outputHi - i.outputLo) / (i.inputHi - i.inputLo)
  }

  /**
   * With the offset applied, "bottom" keeps the content's bottom edge on the
   * container's bottom edge and "center" keeps the two centres together, at
   * every height `h` of the container.
   */
  lemma ContentEmergesFromEdge(align: string, contentHeight: real, h: real)
    requires contentHeight != 0.0
    requires align == "center" || align == "bottom"
    ensures var offset := Lerp(ContentTransform(align, contentHeight).value, h);
      && (align == "bottom" ==> offset + contentHeight == h)
      && (align == "center" ==> offset + contentHeight / 2.0 == h / 2.0)
  {
    var t := ContentTransform(align, contentHeight).value;
    if align == "bottom" {
      calc {
        Lerp(t, h);
        -contentHeight + h * contentHeight / contentHeight;
        { assert h * contentHeight / contentHeight == h; }
        h - contentHeight;
      }
    } else {
      calc {
        Lerp(t, h);
        -contentHeight / 2.0 + h * (contentHeight / 2.0) / contentHeight;
        { assert h * (contentHeight / 2.0) / contentHeight == h / 2.0; }
        h / 2.0 - contentHeight / 2.0;
      }
    }
  }

  /** For a content height of 100, "center" maps heights 0 and 100 to offsets -50 and 0. */
  lemma CenterOffsetExample()
    ensures Lerp(ContentTransform("center", 100.0).value, 0.0) == -50.0
    ensures Lerp(ContentTransform("center", 100.0).value, 100.0) == 0.0
  {
    var t := ContentTransform("center", 100.0).value;
    assert t == Interpolation(0.0, 100.0, -50.0, 0.0);
    ContentEmergesFromEdge("center", 100.0, 0.0);
    ContentEmergesFromEdge("center", 100.0, 100.0);
  }

  /** For a content height of 100, "bottom" maps heights 0 and 100 to offsets -100 and 0. */
  lemma BottomOffsetExample()
    ensures Lerp(ContentTransform("bottom", 100.0).value, 0.0) == -100.0
    ensures Lerp(ContentTransform("bottom", 100.0).value, 100.0) == 0.0
  {
    var t := ContentTransform("bottom", 100.0).value;
    assert t == Interpolation(0.0, 100.0, -100.0, 0.0);
    ContentEmergesFromEdge("bottom", 100.0, 0.0);
    ContentEmergesFromEdge("bottom", 100.0, 100.0);
  }
}
