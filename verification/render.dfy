/** Inertia prop resolution: what one response announces and delivers, and what a full response and the partial reloads
    that follow it deliver together (bond/render.go, bond/props.go). A prop's value is a number; a prop computed by a
    function carries what that function returns. */
module Render {

  datatype Source = Gives(value: nat) | Fails

  datatype Meta = NoMeta | ScrollMeta(page: nat)

  datatype Prop =
    | Lazy(source: Source)
    | Deferred(source: Source, group: string, merge: bool, deepMerge: bool, prepend: bool, matchOn: seq<string>,
               once: bool)
    | Always(value: nat)
    | Optional(source: Source, once: bool, key: string)
    | Merge(source: Source, deepMerge: bool, prepend: bool, matchOn: seq<string>, once: bool, key: string)
    | Once(source: Source, key: string)
    | Scroll(source: Source, isDeferred: bool, group: string, prepend: bool, meta: Meta)
    | Plain(value: nat)

  type Props = map<string, Prop>

  /** The headers the renderer reads. */
  datatype Request = Request(
    component: string, only: string, except: string, exceptOnce: string, intent: string, reset: string)

  /** The request as resolveProps sees it. */
  datatype Reload = Reload(partial: bool, only: seq<string>, except: seq<string>, held: seq<string>, intent: string)

  datatype PageMeta = PageMeta(
    appends: seq<string>,
    prepends: seq<string>,
    deepMerges: seq<string>,
    matchOn: map<string, seq<string>>,
    scrolls: map<string, Meta>,
    onces: map<string, string>)

  datatype Page = Page(props: map<string, nat>, announced: map<string, seq<string>>, meta: PageMeta)

  datatype Result<T> = Ok(value: T) | Err(key: string)

  // ---------------------------------------------------------------- header lists

  /** strings.Split at commas. */
  function Split(s: string): (pieces: seq<string>)
    ensures |pieces| > 0
    ensures forall i :: 0 <= i < |pieces| ==> ',' !in pieces[i]
  {
    if s == [] then [[]] else InFront(s[0], Split(s[1..]))
  }

  /** One more character in front: it joins the first piece, or a comma starts a new one. */
  function InFront(c: char, pieces: seq<string>): (longer: seq<string>)
    requires |pieces| > 0
    ensures |longer| > 0
  {
    if c == ',' then [[]] + pieces else [[c] + pieces[0]] + pieces[1..]
  }

  lemma InFrontOfFirst(c: char, p: seq<string>, q: seq<string>)
    requires |p| > 0
    ensures InFront(c, p + q) == InFront(c, p) + q
  {
    assert (p + q)[1..] == p[1..] + q;
  }

  function HeaderList(s: string): seq<string> {
    if s == "" then [] else Split(s)
  }

  /** What a client sends for a list of keys. */
  function Joined(keys: seq<string>): string
    requires keys != []
  {
    if |keys| == 1 then keys[0] else keys[0] + [','] + Joined(keys[1..])
  }

  lemma {:induction false} SplitFirst(first: string, rest: string)
    requires ',' !in first
    ensures Split(first) == [first]
    ensures Split(first + [','] + rest) == [first] + Split(rest)
  {
    if first == [] {
      assert (first + [','] + rest)[1..] == rest;
    } else {
      SplitFirst(first[1..], rest);
      assert (first + [','] + rest)[1..] == first[1..] + [','] + rest;
      assert [first[0]] + first[1..] == first;
    }
  }

  lemma {:induction false} SplitJoined(keys: seq<string>)
    requires keys != [] && forall i :: 0 <= i < |keys| ==> ',' !in keys[i]
    ensures Split(Joined(keys)) == keys
  {
    if |keys| == 1 {
      SplitFirst(keys[0], []);
    } else {
      SplitJoined(keys[1..]);
      SplitFirst(keys[0], Joined(keys[1..]));
      assert [keys[0]] + keys[1..] == keys;
    }
  }

  lemma {:induction false} JoinedIsEmpty(keys: seq<string>)
    requires keys != []
    ensures Joined(keys) == "" <==> keys == [""]
  {
    if |keys| > 1 {
      assert ',' == Joined(keys)[|keys[0]|];
    } else {
      assert keys == [keys[0]];
    }
  }

  lemma {:induction false} SplitAtComma(a: string, b: string)
    ensures Split(a + [','] + b) == Split(a) + Split(b)
  {
    if a == [] {
      assert (a + [','] + b)[1..] == b;
    } else {
      SplitAtComma(a[1..], b);
      assert (a + [','] + b)[1..] == a[1..] + [','] + b;
      InFrontOfFirst(a[0], Split(a[1..]), Split(b));
    }
  }

  /** A comma-free key of the list is a piece of its header, whatever the other keys are. */
  lemma {:induction false} PieceOfJoined(keys: seq<string>, key: string)
    requires key in keys && ',' !in key
    ensures key in Split(Joined(keys))
  {
    SplitFirst(key, []);
    if |keys| > 1 {
      SplitAtComma(keys[0], Joined(keys[1..]));
      if key != keys[0] {
        assert keys == [keys[0]] + keys[1..];
        PieceOfJoined(keys[1..], key);
      }
    }
  }

  lemma NoCommaInList(header: string, key: string)
    ensures key in HeaderList(header) ==> ',' !in key
  {
    var list := HeaderList(header);
    assert forall i :: 0 <= i < |list| ==> ',' !in list[i];
  }

  /** No key has a comma, and the list is not the empty key alone. */
  predicate HeaderSafe(keys: seq<string>) {
    keys != [""] && forall i :: 0 <= i < |keys| ==> ',' !in keys[i]
  }

  /** A list survives the header exactly when no key has a comma and the list is not the empty key alone. */
  lemma ListSurvivesHeader(keys: seq<string>)
    requires keys != []
    ensures HeaderList(Joined(keys)) == keys <==> HeaderSafe(keys)
  {
    JoinedIsEmpty(keys);
    if forall i :: 0 <= i < |keys| ==> ',' !in keys[i] {
      SplitJoined(keys);
    }
  }

  // ---------------------------------------------------------------- which props a response delivers

  /** Lazy, optional and deferred props come only when a partial reload names them. */
  predicate OnRequestOnly(p: Prop) {
    p.Lazy? || p.Deferred? || p.Optional? || (p.Scroll? && p.isDeferred)
  }

  /** The key a once prop is remembered under by the client. */
  function TrackKey(key: string, p: Prop): string {
    if (p.Optional? || p.Merge? || p.Once?) && p.key != "" then p.key else key
  }

  predicate SentOnce(p: Prop) {
    p.Once? || ((p.Deferred? || p.Optional? || p.Merge?) && p.once)
  }

  /** The client already has it. */
  predicate Held(r: Reload, key: string, p: Prop) {
    SentOnce(p) && TrackKey(key, p) in r.held
  }

  /** A partial reload asks for an ordinary prop. */
  predicate ShouldIncludeInPartial(key: string, only: seq<string>, except: seq<string>) {
    key !in except && (only == [] || key in only)
  }

  predicate Delivers(r: Reload, key: string, p: Prop) {
    p.Always?
    || (!Held(r, key, p)
        && if OnRequestOnly(p) then r.partial && key in r.only
           else !r.partial || ShouldIncludeInPartial(key, r.only, r.except))
  }

  function Evaluate(p: Prop): Source {
    if p.Always? || p.Plain? then Gives(p.value) else p.source
  }

  /** A delivered prop whose function fails. */
  predicate CannotDeliver(r: Reload, key: string, p: Prop) {
    Delivers(r, key, p) && Evaluate(p).Fails?
  }

  /** Whether and on which side the client joins a delivered prop to what it has. */
  datatype Side = Replace | Append | Prepend

  function SideOf(p: Prop, intent: string): Side {
    match p
    case Deferred(_, _, merge, _, prepend, _, _) => if !merge then Replace else if prepend then Prepend else Append
    case Merge(_, _, prepend, _, _, _) => if prepend then Prepend else Append
    case Scroll(_, _, _, prepend, _) =>
      if intent == "prepend" then Prepend
      else if intent == "append" then Append
      else if prepend then Prepend
      else Append
    case _ => Replace
  }

  predicate JoinsDeep(p: Prop) {
    (p.Deferred? && p.merge && p.deepMerge) || (p.Merge? && p.deepMerge)
  }

  function MatchesOn(p: Prop): seq<string> {
    if (p.Deferred? && p.merge) || p.Merge? then p.matchOn else []
  }

  /** What the page's metadata must say of one key. */
  ghost predicate Recorded(r: Reload, key: string, p: Prop, m: PageMeta) {
    var sent := Delivers(r, key, p);
    && (key in m.appends <==> sent && SideOf(p, r.intent).Append?)
    && (key in m.prepends <==> sent && SideOf(p, r.intent).Prepend?)
    && (key in m.deepMerges <==> sent && JoinsDeep(p))
    && (key in m.matchOn <==> sent && MatchesOn(p) != [])
    && (key in m.matchOn ==> m.matchOn[key] == MatchesOn(p))
    && (key in m.scrolls <==> sent && p.Scroll? && p.meta.ScrollMeta?)
    && (key in m.scrolls ==> p.Scroll? && m.scrolls[key] == p.meta)
    && (key in m.onces <==> sent && SentOnce(p))
    && (key in m.onces ==> m.onces[key] == TrackKey(key, p))
  }

  ghost predicate Unrecorded(key: string, m: PageMeta) {
    && key !in m.appends && key !in m.prepends && key !in m.deepMerges
    && key !in m.matchOn && key !in m.scrolls && key !in m.onces
  }

  ghost predicate SameRecord(key: string, m: PageMeta, n: PageMeta) {
    && (key in m.appends <==> key in n.appends)
    && (key in m.prepends <==> key in n.prepends)
    && (key in m.deepMerges <==> key in n.deepMerges)
    && (key in m.matchOn <==> key in n.matchOn) && (key in m.matchOn ==> m.matchOn[key] == n.matchOn[key])
    && (key in m.scrolls <==> key in n.scrolls) && (key in m.scrolls ==> m.scrolls[key] == n.scrolls[key])
    && (key in m.onces <==> key in n.onces) && (key in m.onces ==> m.onces[key] == n.onces[key])
  }

  ghost predicate Distinct(s: seq<string>) {
    forall i, j :: 0 <= i < j < |s| ==> s[i] != s[j]
  }

  ghost predicate DistinctLists(m: PageMeta) {
    Distinct(m.appends) && Distinct(m.prepends) && Distinct(m.deepMerges)
  }

  // ---------------------------------------------------------------- the code

  function AppendUnique(s: seq<string>, item: string): (t: seq<string>)
    ensures Distinct(s) ==> Distinct(t)
    ensures forall k :: k in t <==> k in s || k == item
  {
    if item in s then s else s + [item]
  }

  function AddSide(m: PageMeta, key: string, side: Side): PageMeta {
    match side
    case Replace => m
    case Append => m.(appends := AppendUnique(m.appends, key))
    case Prepend => m.(prepends := AppendUnique(m.prepends, key))
  }

  function AddMatchOn(m: PageMeta, key: string, fields: seq<string>): PageMeta {
    if fields == [] then m else m.(matchOn := m.matchOn[key := fields])
  }

  /** collectDeferredMergeMeta. */
  function CollectDeferred(m: PageMeta, key: string, p: Prop): PageMeta
    requires p.Deferred?
  {
    if !p.merge then m
    else
      var sided := AddSide(m, key, if p.prepend then Prepend else Append);
      var deep := if p.deepMerge then sided.(deepMerges := AppendUnique(sided.deepMerges, key)) else sided;
      AddMatchOn(deep, key, p.matchOn)
  }

  /** collectMergePropMeta. */
  function CollectMerge(m: PageMeta, key: string, p: Prop): PageMeta
    requires p.Merge?
  {
    var sided := AddSide(m, key, if p.prepend then Prepend else Append);
    var deep := if p.deepMerge then sided.(deepMerges := AppendUnique(sided.deepMerges, key)) else sided;
    AddMatchOn(deep, key, p.matchOn)
  }

  /** collectScrollMeta. */
  function CollectScroll(m: PageMeta, key: string, p: Prop, intent: string): PageMeta
    requires p.Scroll?
  {
    var prepend := if intent == "prepend" then true else if intent == "append" then false else p.prepend;
    var sided := AddSide(m, key, if prepend then Prepend else Append);
    if p.meta.ScrollMeta? then sided.(scrolls := sided.scrolls[key := p.meta]) else sided
  }

  /** m with all that p has to record of key. */
  function WithRecord(m: PageMeta, key: string, p: Prop, intent: string): PageMeta {
    PageMeta(
      if SideOf(p, intent).Append? then AppendUnique(m.appends, key) else m.appends,
      if SideOf(p, intent).Prepend? then AppendUnique(m.prepends, key) else m.prepends,
      if JoinsDeep(p) then AppendUnique(m.deepMerges, key) else m.deepMerges,
      if MatchesOn(p) != [] then m.matchOn[key := MatchesOn(p)] else m.matchOn,
      if p.Scroll? && p.meta.ScrollMeta? then m.scrolls[key := p.meta] else m.scrolls,
      if SentOnce(p) then m.onces[key := TrackKey(key, p)] else m.onces)
  }

  /** It records p for key, touches the record of no other key, and keeps the lists free of repetitions. */
  lemma WithRecordIsLocal(r: Reload, m: PageMeta, key: string, p: Prop)
    requires Unrecorded(key, m) && DistinctLists(m) && Delivers(r, key, p)
    ensures var m' := WithRecord(m, key, p, r.intent);
      Recorded(r, key, p, m') && DistinctLists(m') && forall k | k != key :: SameRecord(k, m, m')
  {
    var m' := WithRecord(m, key, p, r.intent);
    RecordsKey(r, m, key, p);
    forall k | k != key
      ensures SameRecord(k, m, m')
    {
      RecordsNoOther(m, key, p, r.intent, k);
    }
  }

  lemma RecordsKey(r: Reload, m: PageMeta, key: string, p: Prop)
    requires Unrecorded(key, m) && Delivers(r, key, p)
    ensures Recorded(r, key, p, WithRecord(m, key, p, r.intent))
  {
  }

  lemma RecordsNoOther(m: PageMeta, key: string, p: Prop, intent: string, k: string)
    requires k != key
    ensures SameRecord(k, m, WithRecord(m, key, p, intent))
  {
  }

  /** What one turn of resolveProps' loop must leave: the prop, its metadata, or its error. */
  ghost predicate TurnTaken(r: Reload, key: string, p: Prop, resolved: map<string, nat>, meta: PageMeta,
                            result: Result<(map<string, nat>, PageMeta)>)
  {
    if !Delivers(r, key, p) then result == Ok((resolved, meta))
    else if Evaluate(p).Fails? then result == Err(key)
    else result == Ok((resolved[key := Evaluate(p).value], WithRecord(meta, key, p, r.intent)))
  }

  /** The switch's cases for props that come only when named. */
  method ResolveNamed(r: Reload, key: string, p: Prop, resolved: map<string, nat>, meta: PageMeta)
    returns (result: Result<(map<string, nat>, PageMeta)>)
    requires p.Lazy? || p.Deferred? || p.Optional?
    ensures TurnTaken(r, key, p, resolved, meta, result)
  {
    var m := meta;
    match p
    case Lazy(source) =>
      if !(r.partial && key in r.only) {
        return Ok((resolved, m));
      }
      if source.Fails? {
        return Err(key);
      }
      return Ok((resolved[key := source.value], m));
    case Deferred(source, _, _, _, _, _, once) =>
      if !(r.partial && key in r.only) || (once && key in r.held) {
        return Ok((resolved, m));
      }
      if source.Fails? {
        return Err(key);
      }
      m := CollectDeferred(m, key, p);
      if once {
        m := m.(onces := m.onces[key := key]);
      }
      return Ok((resolved[key := source.value], m));
    case Optional(source, once, name) =>
      var trackKey := if name != "" then name else key;
      if !(r.partial && key in r.only) || (once && trackKey in r.held) {
        return Ok((resolved, m));
      }
      if source.Fails? {
        return Err(key);
      }
      if once {
        m := m.(onces := m.onces[key := trackKey]);
      }
      return Ok((resolved[key := source.value], m));
  }

  /** The switch's cases for merge and once props. */
  method ResolveComputed(r: Reload, key: string, p: Prop, resolved: map<string, nat>, meta: PageMeta)
    returns (result: Result<(map<string, nat>, PageMeta)>)
    requires p.Merge? || p.Once?
    ensures TurnTaken(r, key, p, resolved, meta, result)
  {
    var m := meta;
    match p
    case Merge(source, _, _, _, once, name) =>
      var trackKey := if name != "" then name else key;
      if once && trackKey in r.held {
        return Ok((resolved, m));
      }
      if r.partial && !ShouldIncludeInPartial(key, r.only, r.except) {
        return Ok((resolved, m));
      }
      if source.Fails? {
        return Err(key);
      }
      m := CollectMerge(m, key, p);
      if once {
        m := m.(onces := m.onces[key := trackKey]);
      }
      return Ok((resolved[key := source.value], m));
    case Once(source, name) =>
      var trackKey := if name != "" then name else key;
      if trackKey in r.held || (r.partial && !ShouldIncludeInPartial(key, r.only, r.except)) {
        return Ok((resolved, m));
      }
      if source.Fails? {
        return Err(key);
      }
      m := m.(onces := m.onces[key := trackKey]);
      return Ok((resolved[key := source.value], m));
  }

  /** The switch's case for scroll props. */
  method ResolveScroll(r: Reload, key: string, p: Prop, resolved: map<string, nat>, meta: PageMeta)
    returns (result: Result<(map<string, nat>, PageMeta)>)
    requires p.Scroll?
    ensures TurnTaken(r, key, p, resolved, meta, result)
  {
    var wanted := if p.isDeferred then r.partial && key in r.only
                  else !r.partial || ShouldIncludeInPartial(key, r.only, r.except);
    if !wanted {
      return Ok((resolved, meta));
    }
    if p.source.Fails? {
      return Err(key);
    }
    return Ok((resolved[key := p.source.value], CollectScroll(meta, key, p, r.intent)));
  }

  /** One turn of resolveProps' loop: the switch over the kinds of prop. */
  method ResolveOne(r: Reload, key: string, p: Prop, resolved: map<string, nat>, meta: PageMeta)
    returns (result: Result<(map<string, nat>, PageMeta)>)
    ensures TurnTaken(r, key, p, resolved, meta, result)
  {
    match p
    case Lazy(_) => result := ResolveNamed(r, key, p, resolved, meta);
    case Deferred(_, _, _, _, _, _, _) => result := ResolveNamed(r, key, p, resolved, meta);
    case Optional(_, _, _) => result := ResolveNamed(r, key, p, resolved, meta);
    case Always(value) => result := Ok((resolved[key := value], meta));
    case Plain(value) =>
      if r.partial && !ShouldIncludeInPartial(key, r.only, r.except) {
        return Ok((resolved, meta));
      }
      return Ok((resolved[key := value], meta));
    case Scroll(_, _, _, _, _) => result := ResolveScroll(r, key, p, resolved, meta);
    case _ => result := ResolveComputed(r, key, p, resolved, meta);
  }

  /** order is the order the map is walked in: any one. */
  ghost predicate Enumerates(order: seq<string>, props: Props) {
    Distinct(order) && forall k :: k in order <==> k in props
  }

  /** Every delivered prop with its value, and no other. */
  ghost predicate Delivered(r: Reload, props: Props, keys: seq<string>, resolved: map<string, nat>)
    requires forall k :: k in keys ==> k in props
  {
    && (forall k :: k in resolved ==> k in keys)
    && forall k | k in keys ::
         && (k in resolved <==> Delivers(r, k, props[k]))
         && (k in resolved ==> Evaluate(props[k]) == Gives(resolved[k]))
  }

  ghost predicate AllRecorded(r: Reload, props: Props, keys: seq<string>, m: PageMeta)
    requires forall k :: k in keys ==> k in props
  {
    && (forall k | k in keys :: Recorded(r, k, props[k], m))
    && (forall k | k !in keys :: Unrecorded(k, m))
  }

  lemma TurnExtends(r: Reload, props: Props, order: seq<string>, i: nat, resolved: map<string, nat>, m: PageMeta,
                    resolved': map<string, nat>, m': PageMeta)
    requires Enumerates(order, props) && i < |order|
    requires Delivered(r, props, order[..i], resolved) && AllRecorded(r, props, order[..i], m) && DistinctLists(m)
    requires TurnTaken(r, order[i], props[order[i]], resolved, m, Ok((resolved', m')))
    ensures Delivered(r, props, order[..i + 1], resolved')
    ensures AllRecorded(r, props, order[..i + 1], m') && DistinctLists(m')
  {
    DeliveredExtends(r, props, order, i, resolved, resolved');
    MetaExtends(r, props, order, i, m, m');
  }

  lemma DeliveredExtends(r: Reload, props: Props, order: seq<string>, i: nat, resolved: map<string, nat>,
                         resolved': map<string, nat>)
    requires Enumerates(order, props) && i < |order| && Delivered(r, props, order[..i], resolved)
    requires var p := props[order[i]];
      if Delivers(r, order[i], p) then Evaluate(p).Gives? && resolved' == resolved[order[i] := Evaluate(p).value]
      else resolved' == resolved
    ensures Delivered(r, props, order[..i + 1], resolved')
  {
    assert order[i] !in order[..i];
    assert forall k :: k in order[..i + 1] <==> k in order[..i] || k == order[i];
  }

  lemma MetaExtends(r: Reload, props: Props, order: seq<string>, i: nat, m: PageMeta, m': PageMeta)
    requires Enumerates(order, props) && i < |order| && AllRecorded(r, props, order[..i], m) && DistinctLists(m)
    requires var p := props[order[i]];
      m' == if Delivers(r, order[i], p) then WithRecord(m, order[i], p, r.intent) else m
    ensures AllRecorded(r, props, order[..i + 1], m') && DistinctLists(m')
  {
    assert Unrecorded(order[i], m);
    if Delivers(r, order[i], props[order[i]]) {
      WithRecordIsLocal(r, m, order[i], props[order[i]]);
    }
    Extends(r, props, order, i, m, m');
  }

  /** resolveProps. */
  method ResolveProps(r: Reload, props: Props, order: seq<string>)
    returns (result: Result<(map<string, nat>, PageMeta)>)
    requires Enumerates(order, props)
    ensures result.Err? <==> exists k :: k in props && CannotDeliver(r, k, props[k])
    ensures result.Err? ==> result.key in props && CannotDeliver(r, result.key, props[result.key])
    ensures result.Ok? ==> Delivered(r, props, order, result.value.0)
    ensures result.Ok? ==> AllRecorded(r, props, order, result.value.1) && DistinctLists(result.value.1)
  {
    var resolved: map<string, nat> := map[];
    var meta := PageMeta([], [], [], map[], map[], map[]);
    for i := 0 to |order|
      invariant Delivered(r, props, order[..i], resolved)
      invariant AllRecorded(r, props, order[..i], meta) && DistinctLists(meta)
      invariant forall k | k in order[..i] :: !CannotDeliver(r, k, props[k])
    {
      var key := order[i];
      assert key !in order[..i];
      var one := ResolveOne(r, key, props[key], resolved, meta);
      if one.Err? {
        return Err(one.key);
      }
      TurnExtends(r, props, order, i, resolved, meta, one.value.0, one.value.1);
      resolved, meta := one.value.0, one.value.1;
    }
    assert order[..|order|] == order;
    return Ok((resolved, meta));
  }

  lemma Extends(r: Reload, props: Props, order: seq<string>, i: nat, m: PageMeta, m': PageMeta)
    requires Enumerates(order, props) && i < |order|
    requires AllRecorded(r, props, order[..i], m)
    requires Recorded(r, order[i], props[order[i]], m')
    requires forall k | k != order[i] :: SameRecord(k, m, m')
    ensures AllRecorded(r, props, order[..i + 1], m')
  {
    assert forall k :: k in order[..i + 1] <==> k in order[..i] || k == order[i];
    forall k | k in order[..i + 1]
      ensures Recorded(r, k, props[k], m')
    {
      if k != order[i] {
        assert SameRecord(k, m, m') && Recorded(r, k, props[k], m);
      }
    }
    forall k | k !in order[..i + 1]
      ensures Unrecorded(k, m')
    {
      assert SameRecord(k, m, m') && Unrecorded(k, m);
    }
  }

  /** The group a prop is deferred to, if it is. */
  predicate InGroup(p: Prop, group: string) {
    (p.Deferred? || (p.Scroll? && p.isDeferred)) && p.group == group
  }

  predicate Lists(groups: map<string, seq<string>>, group: string, key: string) {
    group in groups && key in groups[group]
  }

  /** The groups list exactly the deferred keys among keys, each once; no group is empty. */
  ghost predicate Announces(props: Props, keys: seq<string>, groups: map<string, seq<string>>)
    requires forall k :: k in keys ==> k in props
  {
    && (forall g | g in groups :: groups[g] != [] && Distinct(groups[g]))
    && (forall g, k | Lists(groups, g, k) :: k in keys && InGroup(props[k], g))
    && (forall g, k | k in keys && InGroup(props[k], g) :: Lists(groups, g, k))
  }

  /** The groups with one more key listed in its prop's group. */
  function Listing(groups: map<string, seq<string>>, key: string, p: Prop): map<string, seq<string>> {
    if p.Deferred? || (p.Scroll? && p.isDeferred)
    then groups[p.group := (if p.group in groups then groups[p.group] else []) + [key]]
    else groups
  }

  lemma ListingAdds(groups: map<string, seq<string>>, key: string, p: Prop, g: string, k: string)
    ensures Lists(Listing(groups, key, p), g, k) <==> Lists(groups, g, k) || (k == key && InGroup(p, g))
  {
  }

  lemma GroupsGrow(props: Props, order: seq<string>, i: nat, groups: map<string, seq<string>>)
    requires Enumerates(order, props) && i < |order| && Announces(props, order[..i], groups)
    ensures Announces(props, order[..i + 1], Listing(groups, order[i], props[order[i]]))
  {
    var key, p := order[i], props[order[i]];
    var groups' := Listing(groups, key, p);
    assert key !in order[..i];
    assert forall k :: k in order[..i + 1] <==> k in order[..i] || k == key;
    forall g, k
      ensures Lists(groups', g, k) <==> Lists(groups, g, k) || (k == key && InGroup(p, g))
    {
      ListingAdds(groups, key, p, g, k);
    }
    forall g | g in groups'
      ensures groups'[g] != [] && Distinct(groups'[g])
    {
      if g in groups {
        assert Distinct(groups[g]) && !Lists(groups, g, key);
      }
    }
  }

  /** extractDeferredGroups. */
  method ExtractDeferredGroups(props: Props, order: seq<string>) returns (groups: map<string, seq<string>>)
    requires Enumerates(order, props)
    ensures Announces(props, order, groups)
  {
    groups := map[];
    for i := 0 to |order|
      invariant Announces(props, order[..i], groups)
    {
      var p := props[order[i]];
      GroupsGrow(props, order, i, groups);
      if p.Deferred? || (p.Scroll? && p.isDeferred) {
        groups := groups[p.group := (if p.group in groups then groups[p.group] else []) + [order[i]]];
      }
    }
    assert order[..|order|] == order;
  }

  /** s without keys, in order. */
  function Without(s: seq<string>, keys: seq<string>): (kept: seq<string>)
    ensures forall k :: k in kept <==> k in s && k !in keys
    ensures Distinct(s) ==> Distinct(kept)
  {
    if s == [] then []
    else
      var before := Without(s[..|s|-1], keys);
      assert s == s[..|s|-1] + [s[|s|-1]];
      if s[|s|-1] in keys then before else before + [s[|s|-1]]
  }

  /** removeKeys. */
  method RemoveKeys(s: seq<string>, keys: seq<string>) returns (kept: seq<string>)
    ensures kept == Without(s, keys)
  {
    if |keys| == 0 {
      NothingRemoved(s);
      return s;
    }
    kept := [];
    for i := 0 to |s|
      invariant kept == Without(s[..i], keys)
    {
      assert s[..i + 1][..i] == s[..i];
      if s[i] !in keys {
        kept := kept + [s[i]];
      }
    }
    assert s[..|s|] == s;
  }

  lemma {:induction false} NothingRemoved(s: seq<string>)
    ensures Without(s, []) == s
  {
    if s != [] {
      NothingRemoved(s[..|s|-1]);
      assert s == s[..|s|-1] + [s[|s|-1]];
    }
  }

  lemma Regrouped(a: seq<string>, b: seq<string>, c: seq<string>)
    ensures (a + b) + c == a + (b + c)
  {
  }

  /** The kept keys stand in the order they had: filtering the two parts of a list filters the list. */
  lemma {:induction false} WithoutParts(s: seq<string>, t: seq<string>, keys: seq<string>)
    ensures Without(s + t, keys) == Without(s, keys) + Without(t, keys)
  {
    if t == [] {
      assert s + t == s;
    } else {
      var n := |t| - 1;
      WithoutParts(s, t[..n], keys);
      assert (s + t)[..|s + t| - 1] == s + t[..n] && (s + t)[|s + t| - 1] == t[n];
      Regrouped(Without(s, keys), Without(t[..n], keys), [t[n]]);
    }
  }

  function ReloadOf(req: Request, component: string): Reload {
    Reload(req.component == component && (req.only != "" || req.except != ""),
           HeaderList(req.only), HeaderList(req.except), HeaderList(req.exceptOnce), req.intent)
  }

  /** The keys whose merge metadata the response drops. */
  function ResetKeys(req: Request, component: string): seq<string> {
    if ReloadOf(req, component).partial then HeaderList(req.reset) else []
  }

  predicate Sent(r: Reload, props: Props, key: string) {
    key in props && Delivers(r, key, props[key])
  }

  /** The props are exactly those delivered, with their values. */
  ghost predicate PropsFor(r: Reload, props: Props, delivered: map<string, nat>) {
    && (forall k :: k in delivered <==> Sent(r, props, k))
    && (forall k | k in delivered :: Evaluate(props[k]) == Gives(delivered[k]))
  }

  /** The groups are exactly those of the deferred props on a full response, and none on a partial one. */
  ghost predicate AnnouncedFor(r: Reload, props: Props, groups: map<string, seq<string>>) {
    && (forall g | g in groups :: groups[g] != [] && Distinct(groups[g]))
    && (forall g, k :: Lists(groups, g, k) <==> !r.partial && k in props && InGroup(props[k], g))
  }

  /** The metadata, less the merge entries of the keys in reset. */
  ghost predicate MetaFor(r: Reload, props: Props, reset: seq<string>, m: PageMeta) {
    && DistinctLists(m)
    && (forall k :: k in m.appends <==> Sent(r, props, k) && SideOf(props[k], r.intent).Append? && k !in reset)
    && (forall k :: k in m.prepends <==> Sent(r, props, k) && SideOf(props[k], r.intent).Prepend? && k !in reset)
    && (forall k :: k in m.deepMerges <==> Sent(r, props, k) && JoinsDeep(props[k]) && k !in reset)
    && (forall k :: k in m.matchOn <==> Sent(r, props, k) && MatchesOn(props[k]) != [])
    && (forall k | k in m.matchOn :: m.matchOn[k] == MatchesOn(props[k]))
    && (forall k :: k in m.scrolls <==> Sent(r, props, k) && props[k].Scroll? && props[k].meta.ScrollMeta?)
    && (forall k | k in m.scrolls :: m.scrolls[k] == props[k].meta)
    && (forall k :: k in m.onces <==> Sent(r, props, k) && SentOnce(props[k]))
    && (forall k | k in m.onces :: m.onces[k] == TrackKey(k, props[k]))
  }

  /** What a page must be: Render's steps 2 to 6, said without the order of the walk. */
  ghost predicate PageFor(req: Request, component: string, props: Props, page: Page) {
    var r := ReloadOf(req, component);
    && PropsFor(r, props, page.props)
    && AnnouncedFor(r, props, page.announced)
    && MetaFor(r, props, ResetKeys(req, component), page.meta)
  }

  lemma AnnouncesIsFor(r: Reload, props: Props, order: seq<string>, groups: map<string, seq<string>>)
    requires Enumerates(order, props)
    requires if r.partial then groups == map[] else Announces(props, order, groups)
    ensures AnnouncedFor(r, props, groups)
  {
  }

  lemma DeliveredIsFor(r: Reload, props: Props, order: seq<string>, resolved: map<string, nat>)
    requires Enumerates(order, props) && Delivered(r, props, order, resolved)
    ensures PropsFor(r, props, resolved)
  {
  }

  lemma RecordedIsMeta(r: Reload, props: Props, order: seq<string>, m: PageMeta)
    requires Enumerates(order, props) && AllRecorded(r, props, order, m) && DistinctLists(m)
    ensures MetaFor(r, props, [], m)
  {
    forall k
      ensures if k in props then Recorded(r, k, props[k], m) else Unrecorded(k, m)
    {
      assert k in order <==> k in props;
    }
  }

  /** Step 6 of Render. */
  method ClearReset(r: Reload, props: Props, m: PageMeta, reset: seq<string>) returns (m': PageMeta)
    requires MetaFor(r, props, [], m)
    ensures MetaFor(r, props, reset, m')
  {
    var appends := RemoveKeys(m.appends, reset);
    var prepends := RemoveKeys(m.prepends, reset);
    var deepMerges := RemoveKeys(m.deepMerges, reset);
    m' := m.(appends := appends, prepends := prepends, deepMerges := deepMerges);
  }

  /** Render, steps 2 to 6. walk1 and walk2 are the orders the two loops visit the map in. */
  method RenderPage(req: Request, component: string, props: Props, walk1: seq<string>, walk2: seq<string>)
    returns (result: Result<Page>)
    requires Enumerates(walk1, props) && Enumerates(walk2, props)
    ensures result.Err? <==> exists k :: k in props && CannotDeliver(ReloadOf(req, component), k, props[k])
    ensures result.Ok? ==> PageFor(req, component, props, result.value)
  {
    var r := ReloadOf(req, component);
    var announced: map<string, seq<string>> := map[];
    if !r.partial {
      announced := ExtractDeferredGroups(props, walk1);
    }
    AnnouncesIsFor(r, props, walk1, announced);
    var resolved := ResolveProps(r, props, walk2);
    if resolved.Err? {
      return Err(resolved.key);
    }
    var meta := resolved.value.1;
    DeliveredIsFor(r, props, walk2, resolved.value.0);
    RecordedIsMeta(r, props, walk2, meta);
    if r.partial && req.reset != "" {
      meta := ClearReset(r, props, meta, HeaderList(req.reset));
    }
    return Ok(Page(resolved.value.0, announced, meta));
  }

  // ---------------------------------------------------------------- one response

  /** A full response announces exactly the deferred keys, each in its group only, and delivers none of them; a partial
      one announces nothing. */
  lemma AnnouncesDeferredOnly(req: Request, component: string, props: Props, page: Page, key: string, group: string)
    requires PageFor(req, component, props, page)
    ensures ReloadOf(req, component).partial ==> page.announced == map[]
    ensures !ReloadOf(req, component).partial ==>
      (Lists(page.announced, group, key) <==> key in props && InGroup(props[key], group))
    ensures Lists(page.announced, group, key) ==> key !in page.props
  {
    assert forall g | g in page.announced :: Lists(page.announced, g, page.announced[g][0]);
  }

  /** The client is never told to join a prop on both sides, nor anything about a prop the page does not carry. */
  lemma MetaIsConsistent(req: Request, component: string, props: Props, page: Page, key: string)
    requires PageFor(req, component, props, page)
    ensures !(key in page.meta.appends && key in page.meta.prepends)
    ensures !Unrecorded(key, page.meta) ==> key in page.props
    ensures key in page.meta.deepMerges ==> key in page.meta.appends || key in page.meta.prepends
    ensures key in ResetKeys(req, component) ==>
      key !in page.meta.appends && key !in page.meta.prepends && key !in page.meta.deepMerges
  {
  }

  ghost predicate SameElements(s: seq<string>, t: seq<string>) {
    Distinct(s) && Distinct(t) && forall k :: k in s <==> k in t
  }

  /** A request is answered in full when it names another component, or neither lists props to send nor props to leave
      out; any other is a partial reload, even one whose lists name no prop at all. */
  lemma PartialIff(req: Request, component: string)
    ensures ReloadOf(req, component).partial <==>
      req.component == component && !(HeaderList(req.only) == [] && HeaderList(req.except) == [])
  {
  }

  /** Which ordinary props a response carries. A full one carries each of them the client does not hold. A partial one
      carries none its except list names, and of the others those its only list names, or all when it names none. */
  lemma OrdinaryPropsDelivered(req: Request, component: string, props: Props, page: Page, key: string)
    requires PageFor(req, component, props, page) && key in props && !OnRequestOnly(props[key]) && !props[key].Always?
    ensures var r := ReloadOf(req, component);
      && (!r.partial ==> (key in page.props <==> !Held(r, key, props[key])))
      && (r.partial && key in HeaderList(req.except) ==> key !in page.props)
      && (r.partial && key !in HeaderList(req.except) && req.only == "" ==>
            (key in page.props <==> !Held(r, key, props[key])))
      && (r.partial && key !in HeaderList(req.except) && req.only != "" ==>
            (key in page.props <==> key in HeaderList(req.only) && !Held(r, key, props[key])))
  {
    assert Sent(ReloadOf(req, component), props, key) <==> key in page.props;
  }

  /** Always props are in every response. */
  lemma AlwaysDelivered(req: Request, component: string, props: Props, page: Page, key: string)
    requires PageFor(req, component, props, page) && key in props && props[key].Always?
    ensures key in page.props && page.props[key] == props[key].value
  {
    assert Sent(ReloadOf(req, component), props, key) <==> key in page.props;
  }

  /** Lazy, optional and deferred props are in a response exactly when it is partial and names them, held or not; the
      except list has no say. */
  lemma NamedPropsDelivered(req: Request, component: string, props: Props, page: Page, key: string)
    requires PageFor(req, component, props, page) && key in props && OnRequestOnly(props[key])
    ensures var r := ReloadOf(req, component);
      key in page.props <==>
        req.component == component && key in HeaderList(req.only) && !Held(r, key, props[key])
  {
    assert Sent(ReloadOf(req, component), props, key) <==> key in page.props;
  }

  /** Two walks of the same map give pages that differ at most in the order of their lists. */
  lemma WalksAgree(req: Request, component: string, props: Props, a: Page, b: Page)
    requires PageFor(req, component, props, a) && PageFor(req, component, props, b)
    ensures a.props == b.props && a.announced.Keys == b.announced.Keys
    ensures forall g | g in a.announced :: SameElements(a.announced[g], b.announced[g])
    ensures SameElements(a.meta.appends, b.meta.appends) && SameElements(a.meta.prepends, b.meta.prepends)
    ensures SameElements(a.meta.deepMerges, b.meta.deepMerges)
    ensures a.meta.matchOn == b.meta.matchOn && a.meta.scrolls == b.meta.scrolls && a.meta.onces == b.meta.onces
  {
    var r := ReloadOf(req, component);
    PropsAgree(r, props, a.props, b.props);
    GroupsAgree(r, props, a.announced, b.announced);
    ListsAgree(r, props, ResetKeys(req, component), a.meta, b.meta);
    MapsAgree(r, props, ResetKeys(req, component), a.meta, b.meta);
  }

  lemma PropsAgree(r: Reload, props: Props, a: map<string, nat>, b: map<string, nat>)
    requires PropsFor(r, props, a) && PropsFor(r, props, b)
    ensures a == b
  {
    forall k | k in a
      ensures k in b && a[k] == b[k]
    {
      assert Gives(a[k]) == Gives(b[k]);
    }
  }

  lemma GroupsAgree(r: Reload, props: Props, a: map<string, seq<string>>, b: map<string, seq<string>>)
    requires AnnouncedFor(r, props, a) && AnnouncedFor(r, props, b)
    ensures a.Keys == b.Keys && forall g | g in a :: SameElements(a[g], b[g])
  {
    assert forall g | g in a :: Lists(a, g, a[g][0]);
    assert forall g | g in b :: Lists(b, g, b[g][0]);
    forall g | g in a
      ensures g in b && SameElements(a[g], b[g])
    {
      assert Lists(b, g, a[g][0]);
      forall k
        ensures k in a[g] <==> k in b[g]
      {
        assert Lists(a, g, k) <==> Lists(b, g, k);
      }
    }
  }

  lemma ListsAgree(r: Reload, props: Props, reset: seq<string>, a: PageMeta, b: PageMeta)
    requires MetaFor(r, props, reset, a) && MetaFor(r, props, reset, b)
    ensures SameElements(a.appends, b.appends) && SameElements(a.prepends, b.prepends)
    ensures SameElements(a.deepMerges, b.deepMerges)
  {
  }

  lemma MapsAgree(r: Reload, props: Props, reset: seq<string>, a: PageMeta, b: PageMeta)
    requires MetaFor(r, props, reset, a) && MetaFor(r, props, reset, b)
    ensures a.matchOn == b.matchOn && a.scrolls == b.scrolls && a.onces == b.onces
  {
  }

  // ---------------------------------------------------------------- a full response and its partial reloads

  /** The reload the client sends for an announced group. */
  function GroupReload(page: Page, group: string, component: string, held: string, intent: string): Request
    requires group in page.announced && page.announced[group] != []
  {
    Request(component, Joined(page.announced[group]), "", held, intent, "")
  }

  /** What the partial reload for an announced group delivers. Of the group's own keys, exactly those without a comma
      that the client does not hold, unless the empty key is alone in its group. When the list survives the header,
      exactly the group's keys the client does not hold, and the always props. */
  lemma GroupIsDelivered(req: Request, component: string, props: Props, page: Page, group: string,
                         held: string, intent: string, answer: Page, key: string)
    requires PageFor(req, component, props, page) && !ReloadOf(req, component).partial
    requires group in page.announced
    requires PageFor(GroupReload(page, group, component, held, intent), component, props, answer)
    ensures var r := ReloadOf(GroupReload(page, group, component, held, intent), component);
      && (Lists(page.announced, group, key) ==>
            (key in answer.props <==> ',' !in key && page.announced[group] != [""] && !Held(r, key, props[key])))
      && (HeaderSafe(page.announced[group]) ==>
            (key in answer.props <==>
               key in props && (props[key].Always? || (InGroup(props[key], group) && !Held(r, key, props[key])))))
  {
    var keys := page.announced[group];
    var r := ReloadOf(GroupReload(page, group, component, held, intent), component);
    JoinedIsEmpty(keys);
    ListSurvivesHeader(keys);
    assert Lists(page.announced, group, key) <==> key in props && InGroup(props[key], group);
    if key in keys && keys != [""] {
      NoCommaInList(Joined(keys), key);
      if ',' !in key {
        PieceOfJoined(keys, key);
      }
    }
  }

  /** The answer carries exactly the group's keys and the always props. */
  ghost predicate CarriesGroup(props: Props, group: string, answer: Page) {
    forall key :: key in answer.props <==> key in props && (props[key].Always? || InGroup(props[key], group))
  }

  /** For a client that holds nothing, the reload of an announced group carries the group, whole and alone, exactly when
      its list survives the header. */
  lemma GroupIsCarriedIff(req: Request, component: string, props: Props, page: Page, group: string, intent: string,
                          answer: Page)
    requires PageFor(req, component, props, page) && !ReloadOf(req, component).partial
    requires group in page.announced
    requires PageFor(GroupReload(page, group, component, "", intent), component, props, answer)
    ensures CarriesGroup(props, group, answer) <==> HeaderSafe(page.announced[group])
  {
    var keys := page.announced[group];
    forall key
      ensures Lists(page.announced, group, key) ==> (key in answer.props <==> ',' !in key && keys != [""])
      ensures HeaderSafe(keys) ==>
        (key in answer.props <==> key in props && (props[key].Always? || InGroup(props[key], group)))
    {
      GroupIsDelivered(req, component, props, page, group, "", intent, answer, key);
    }
    if !HeaderSafe(keys) {
      var i :| 0 <= i < |keys| && (keys == [""] || ',' in keys[i]);
      assert Lists(page.announced, group, keys[i]);
      assert keys[i] in props && InGroup(props[keys[i]], group) && keys[i] !in answer.props;
    }
  }

  /** A deferred key with a comma in its name is announced, and no request ever delivers it. */
  lemma CommaKeyIsNeverDelivered(req: Request, component: string, props: Props, page: Page, key: string)
    requires PageFor(req, component, props, page)
    requires key in props && OnRequestOnly(props[key]) && ',' in key
    ensures key !in page.props
  {
    NoCommaInList(req.only, key);
  }

  /** A prop that comes only when named can be had by some request exactly when its key has no comma. */
  lemma CanBeNamedIff(component: string, props: Props, key: string)
    requires key in props && OnRequestOnly(props[key])
    ensures (exists req :: Sent(ReloadOf(req, component), props, key)) <==> ',' !in key
  {
    if ',' in key {
      forall req
        ensures !Sent(ReloadOf(req, component), props, key)
      {
        NoCommaInList(req.only, key);
      }
    } else {
      // an empty key is named by a header of one comma
      var header := if key == "" then "," else key;
      SplitFirst(key, "");
      assert "" + [','] + "" == ",";
      var req := Request(component, header, "", "", "", "");
      assert key in ReloadOf(req, component).only;
      assert Sent(ReloadOf(req, component), props, key);
    }
  }

  /** Between the full response and the announced groups, nothing the page was given is forgotten, except lazy and
      optional props, which wait to be named, and once props the client holds. */
  lemma NothingForgotten(req: Request, component: string, props: Props, page: Page, key: string)
    requires PageFor(req, component, props, page) && !ReloadOf(req, component).partial
    requires key in props && !props[key].Lazy? && !props[key].Optional?
    ensures var r := ReloadOf(req, component);
      || key in page.props
      || (Held(r, key, props[key]) && !OnRequestOnly(props[key]))
      || (exists g :: Lists(page.announced, g, key))
  {
    var p := props[key];
    if OnRequestOnly(p) {
      assert InGroup(p, p.group);
      assert Lists(page.announced, p.group, key);
    }
  }
}
