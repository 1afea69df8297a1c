/** The calendar data the client reads and writes, held abstractly: a VEVENT
    component (section 3.6.1 of RFC 5545) as a map from property name to its
    value and VALUE parameter plus an ordered list of child items (VALARM
    components, ATTENDEE lines and anything else), and the stored record
    (a CalDAV calendar object resource, RFC 4791) that carries it. */
module Records {
  import opened Wrappers
  import opened Timestamps
  import opened Triggers

  /** A property value: text, or a date-time as vobject parses it. */
  datatype Value = Text(text: string) | Time(stamp: DateTime)

  /** `str(value)`. */
  function Str(v: Value): string {
    match v
    case Text(t) => t
    case Time(d) => Show(d)
  }

  /** A single-valued property: its value and its VALUE parameter, if any. */
  datatype Prop = Prop(value: Value, valueParam: Option<string>)

  /** An item in the component's list of children. */
  datatype Child =
    | Alarm(action: Option<Value>, description: Option<Value>, trigger: Option<string>)
    | Attendee(cn: Option<Value>)
    | Other(name: string)

  datatype Component = Component(props: map<string, Prop>, children: seq<Child>)

  /** A stored calendar object: its id and URL as the server reports them, the
      VEVENT its data holds (`None` when the data has none), the name of the
      calendar it belongs to, and `str(hash(str(data)))`, kept abstract. */
  datatype Record = Record(
    id: Option<string>,
    url: Option<string>,
    body: Option<Component>,
    parentName: Option<string>,
    fingerprint: string)

  /** Python truthiness of an optional string. */
  predicate Truthy(s: Option<string>) {
    s.Some? && s.value != ""
  }

  /** The VALARM this client adds for an offset: a DISPLAY action, the event
      title as description, and a trigger `minutes` before the start. */
  function DisplayAlarm(description: Value, minutes: int): Child
  {
    Alarm(Some(Text("DISPLAY")), Some(description), Some(TriggerText(minutes)))
  }

  /** One DISPLAY alarm per offset, in order. */
  function DisplayAlarms(description: Value, offsets: seq<int>): (alarms: seq<Child>)
    ensures |alarms| == |offsets|
    ensures forall k :: 0 <= k < |offsets| ==> alarms[k] == DisplayAlarm(description, offsets[k])
  {
    if offsets == [] then []
    else DisplayAlarms(description, offsets[..|offsets| - 1]) + [DisplayAlarm(description, offsets[|offsets| - 1])]
  }

  /** The children with every VALARM removed, the rest in their order. */
  function WithoutAlarms(children: seq<Child>): seq<Child>
  {
    if children == [] then []
    else
      var rest := WithoutAlarms(children[..|children| - 1]);
      var last := children[|children| - 1];
      if last.Alarm? then rest else rest + [last]
  }

  lemma {:induction false} WithoutAlarmsAppend(a: seq<Child>, b: seq<Child>)
    ensures WithoutAlarms(a + b) == WithoutAlarms(a) + WithoutAlarms(b)
    decreases |b|
  {
    if b == [] {
      assert a + b == a;
    } else {
      var b' := b[..|b| - 1];
      assert (a + b)[..|a + b| - 1] == a + b';
      assert b[..|b| - 1] == b';
      WithoutAlarmsAppend(a, b');
    }
  }

  /** Removing the alarms leaves no alarm, and keeps every other child, in
      order: a child is kept exactly when it is not an alarm. */
  lemma {:induction false} WithoutAlarmsKeeps(children: seq<Child>, c: Child)
    ensures c in WithoutAlarms(children) <==> c in children && !c.Alarm?
  {
    if children != [] {
      var init := children[..|children| - 1];
      WithoutAlarmsKeeps(init, c);
      assert children == init + [children[|children| - 1]];
    }
  }

  lemma WithoutAlarmsIdempotent(children: seq<Child>)
    ensures WithoutAlarms(WithoutAlarms(children)) == WithoutAlarms(children)
    decreases |children|
  {
    if children != [] {
      var init := children[..|children| - 1];
      var last := children[|children| - 1];
      WithoutAlarmsIdempotent(init);
      if !last.Alarm? {
        var w := WithoutAlarms(init);
        assert (w + [last])[..|w + [last]| - 1] == w;
      }
    }
  }

  /** One step of the in-place removal: with `done` the surviving prefix and
      `live` the list as it stands, deleting an alarm at position `|done|`
      leaves `done` followed by the unvisited children, and any other child
      joins the surviving prefix. */
  lemma RemovalStep(all: seq<Child>, i: nat, done: seq<Child>, live: seq<Child>)
    requires i < |all| && done == WithoutAlarms(all[..i]) && live == done + all[i..]
    ensures |done| < |live|
    ensures all[i].Alarm? ==>
      live[..|done|] + live[|done| + 1..] == done + all[i + 1..] && WithoutAlarms(all[..i + 1]) == done
    ensures !all[i].Alarm? ==>
      live == (done + [all[i]]) + all[i + 1..] && WithoutAlarms(all[..i + 1]) == done + [all[i]]
  {
    assert all[..i + 1][..i] == all[..i];
    assert all[i..] == [all[i]] + all[i + 1..];
    assert live[..|done|] == done;
    assert live[|done| + 1..] == all[i + 1..];
  }

  /** The VEVENT being edited in place: vobject's component, whose property
      lines and children `create_event` and `update_event` change one call at
      a time. */
  class VEvent {
    var props: map<string, Prop>
    var children: seq<Child>

    function Snapshot(): Component
      reads this
    {
      Component(props, children)
    }

    /** `vcal.add('vevent')`: a component with nothing in it. */
    constructor Empty()
      ensures Snapshot() == Component(map[], [])
    {
      props := map[];
      children := [];
    }

    /** The VEVENT of a stored record, loaded for editing. */
    constructor Load(c: Component)
      ensures Snapshot() == c
    {
      props := c.props;
      children := c.children;
    }

    /** `vevent.add(name).value = v`: a new line without parameters. */
    method Add(name: string, v: Value)
      requires name !in props
      modifies this
      ensures props == old(props)[name := Prop(v, None)]
      ensures children == old(children)
    {
      props := props[name := Prop(v, None)];
    }

    /** `vevent.<name>.value = v`; `ok` is false where the property is absent
        and the attribute access raises, and then nothing changes. */
    method SetValue(name: string, v: Value) returns (ok: bool)
      modifies this
      ensures ok <==> name in old(props)
      ensures ok ==> props == old(props)[name := Prop(v, old(props)[name].valueParam)]
      ensures !ok ==> props == old(props)
      ensures children == old(children)
    {
      if name in props {
        props := props[name := props[name].(value := v)];
        ok := true;
      } else {
        ok := false;
      }
    }

    /** `vevent.<name>.value_param = p`, with the same failure as `SetValue`. */
    method SetValueParam(name: string, p: string) returns (ok: bool)
      modifies this
      ensures ok <==> name in old(props)
      ensures ok ==> props == old(props)[name := Prop(old(props)[name].value, Some(p))]
      ensures !ok ==> props == old(props)
      ensures children == old(children)
    {
      if name in props {
        props := props[name := props[name].(valueParam := Some(p))];
        ok := true;
      } else {
        ok := false;
      }
    }

    /** `if name in vevent.contents: vevent.remove(...)`. */
    method Remove(name: string)
      modifies this
      ensures props == old(props) - {name}
      ensures children == old(children)
    {
      props := props - {name};
    }

    /** Removes every VALARM child, walking a copy of the children and
        deleting each alarm from the live list as it is met. */
    method RemoveAlarms()
      modifies this
      ensures children == WithoutAlarms(old(children))
      ensures props == old(props)
    {
      var all := children;
      var i := 0;
      var kept := 0;
      ghost var done: seq<Child> := [];
      while i < |all|
        invariant 0 <= i <= |all|
        invariant done == WithoutAlarms(all[..i])
        invariant kept == |done|
        invariant children == done + all[i..]
        invariant props == old(props)
      {
        RemovalStep(all, i, done, children);
        if all[i].Alarm? {
          children := children[..kept] + children[kept + 1..];
        } else {
          kept := kept + 1;
          done := done + [all[i]];
        }
        i := i + 1;
      }
      assert all[..i] == all;
    }

    /** Appends one DISPLAY alarm. */
    method AddAlarm(description: Value, minutes: int)
      modifies this
      ensures children == old(children) + [DisplayAlarm(description, minutes)]
      ensures props == old(props)
    {
      children := children + [DisplayAlarm(description, minutes)];
    }
  }
}
