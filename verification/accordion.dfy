/**
 * The accordion: a list of sections, each a header and a collapsible, of
 * which at most one is open. The open section is a single value, so each
 * section's open state is derived from it rather than stored.
 */
module AccordionComponent {
  import opened Wrappers

  /**
   * The active section. Two values mean "none": `Unset` is the `undefined`
   * state starts with when no initial section is given, `Closed` is the
   * `false` stored when the open section is toggled shut.
   */
  datatype Active = Unset | Closed | Open(section: int)

  /** The option names a collapsible declares; they are handed to each section's collapsible. */
  const COLLAPSIBLE_PROPS: set<string> := {"align", "collapsed", "duration", "easing"}

  /** The active section after section `k` is toggled. */
  function Toggled(active: Active, k: int): (r: Active)
    ensures r == Open(k) <==> active != Open(k)
    ensures r.Open? ==> r.section == k
    ensures !r.Open? ==> r == Closed
  {
    if active == Open(k) then Closed else Open(k)
  }

  /** Toggling the same section twice gives it back its open state, but "none" becomes `Closed`. */
  lemma ToggleTwice(active: Active, k: int)
    ensures Toggled(Toggled(active, k), k) == if active == Open(k) then Open(k) else Closed
  {
  }

  class Accordion {
    var active: Active
    /** The arguments `onChange` has been called with, oldest first. */
    ghost var changes: seq<Active>

    constructor (initiallyActiveSection: Option<int>)
      ensures active == if initiallyActiveSection.Some? then Open(initiallyActiveSection.value) else Unset
      ensures changes == []
    {
      active := if initiallyActiveSection.Some? then Open(initiallyActiveSection.value) else Unset;
      changes := [];
    }

    /**
     * A tap on the header of section `k`. `hasOnChange` says whether the
     * options in force at the time of the tap include an `onChange` observer.
     */
    method ToggleSection(k: int, hasOnChange: bool)
      modifies this`active, this`changes
      ensures active == Toggled(old(active), k)
      ensures changes == old(changes) + (if hasOnChange then [active] else [])
    {
      active := Toggled(active, k);
      if hasOnChange {
        changes := changes + [active];
      }
    }
  }

  // -----------------------------------------------------------------------
  // Rendering the sections

  /**
   * The `collapsed` option a section's collapsible receives: the value
   * computed from the active section, or, when the accordion itself was given
   * a `collapsed` option, that option, which is spread after the computed one.
   */
  datatype CollapsedProp<P> = Computed(collapsed: bool) | Passed(value: P)

  /** What section `k` renders with: `isActive` for its header and content, and its collapsible's `collapsed`. */
  datatype SectionView<P> = SectionView(isActive: bool, collapsed: CollapsedProp<P>)

  function RenderSections<P>(active: Active, count: nat, collapsibleProps: map<string, P>): (r: seq<SectionView<P>>)
    ensures |r| == count
    ensures forall k :: 0 <= k < count ==> r[k].isActive == (active == Open(k))
    ensures forall k :: 0 <= k < count ==>
      r[k].collapsed == if "collapsed" in collapsibleProps then Passed(collapsibleProps["collapsed"])
                        else Computed(!r[k].isActive)
  {
    seq(count, k requires 0 <= k < count =>
      var isActive := active == Open(k);
      SectionView(isActive,
        if "collapsed" in collapsibleProps then Passed(collapsibleProps["collapsed"]) else Computed(!isActive)))
  }

  /** The number of sections told they are active. */
  function CountActive<P>(views: seq<SectionView<P>>): nat
  {
    if views == [] then 0 else (if views[0].isActive then 1 else 0) + CountActive(views[1..])
  }

  lemma {:induction false} CountActiveFrom<P>(views: seq<SectionView<P>>, active: Active, first: int)
    requires forall k :: 0 <= k < |views| ==> views[k].isActive == (active == Open(first + k))
    ensures CountActive(views) == if active.Open? && first <= active.section < first + |views| then 1 else 0
  {
    if views != [] {
      CountActiveFrom(views[1..], active, first + 1);
    }
  }

  /** Exactly one section is active when the active value names one of them, none otherwise. */
  lemma ActiveSectionCount<P>(active: Active, count: nat, collapsibleProps: map<string, P>)
    ensures CountActive(RenderSections(active, count, collapsibleProps)) ==
            if active.Open? && 0 <= active.section < count then 1 else 0
  {
    CountActiveFrom(RenderSections(active, count, collapsibleProps), active, 0);
  }

  /** When the accordion was given `collapsed`, every section's collapsible receives that same value. */
  lemma PassedCollapsedOverrides<P>(active: Active, count: nat, collapsibleProps: map<string, P>, j: nat, k: nat)
    requires "collapsed" in collapsibleProps
    requires j < count && k < count
    ensures RenderSections(active, count, collapsibleProps)[j].collapsed
         == RenderSections(active, count, collapsibleProps)[k].collapsed
  {
  }

  // -----------------------------------------------------------------------
  // Distributing the accordion's options

  /**
   * Splits the accordion's options, visited in `keys` order, into those of
   * the collapsibles (checked first) and those of the outer view; the rest
   * are dropped. `viewPropTypes` are the option names the host view declares.
   */
  method PartitionProps<P>(keys: seq<string>, props: map<string, P>, viewPropTypes: set<string>)
    returns (viewProps: map<string, P>, collapsibleProps: map<string, P>)
    requires forall key :: key in keys <==> key in props
    ensures collapsibleProps.Keys == props.Keys * COLLAPSIBLE_PROPS
    ensures viewProps.Keys == (props.Keys - COLLAPSIBLE_PROPS) * viewPropTypes
    ensures forall key :: key in collapsibleProps ==> collapsibleProps[key] == props[key]
    ensures forall key :: key in viewProps ==> viewProps[key] == props[key]
    ensures collapsibleProps.Keys !! viewProps.Keys
    ensures forall key :: key in props ==>
      (key !in collapsibleProps && key !in viewProps <==> key !in COLLAPSIBLE_PROPS && key !in viewPropTypes)
  {
    viewProps := map[];
    collapsibleProps := map[];
    for i := 0 to |keys|
      invariant forall key :: key in collapsibleProps <==> key in keys[..i] && key in COLLAPSIBLE_PROPS
      invariant forall key :: key in viewProps <==>
        key in keys[..i] && key !in COLLAPSIBLE_PROPS && key in viewPropTypes
      invariant forall key :: key in collapsibleProps ==> key in props && collapsibleProps[key] == props[key]
      invariant forall key :: key in viewProps ==> key in props && viewProps[key] == props[key]
    {
      var key := keys[i];
      assert keys[..i + 1] == keys[..i] + [key];
      if key in COLLAPSIBLE_PROPS {
        collapsibleProps := collapsibleProps[key := props[key]];
      } else if key in viewPropTypes {
        viewProps := viewProps[key := props[key]];
      }
    }
    assert keys[..|keys|] == keys;
  }
}
