/** Property maps of nodes and edges, and `clean_props`. */
module Properties {

  /** What Neo4j accepts as one property value: str, int, float or bool. */
  datatype Primitive = Str(s: string) | Int(i: int) | Num(r: real) | Bool(b: bool)

  /** A raw value as an extractor hands it over: None, a primitive, a list, or a dict. */
  datatype RawValue = Null | Scalar(p: Primitive) | ListOf(xs: seq<RawValue>) | Dict(kv: map<string, RawValue>)

  /** A stored value: a primitive, a flat list, or the json text of something richer. */
  datatype StoredValue = One(p: Primitive) | Many(ps: seq<Primitive>) | JsonOf(raw: RawValue)

  type RawProps = map<string, RawValue>
  type Props = map<string, StoredValue>

  function Primitives(xs: seq<RawValue>): (ps: seq<Primitive>)
    requires forall i :: 0 <= i < |xs| ==> xs[i].Scalar?
    ensures |ps| == |xs|
    ensures forall i :: 0 <= i < |xs| ==> xs[i] == Scalar(ps[i])
  {
    seq(|xs|, i requires 0 <= i < |xs| => xs[i].p)
  }

  function CleanValue(v: RawValue): StoredValue
    requires !v.Null?
  {
    match v
    case Scalar(p) => One(p)
    case ListOf(xs) => if forall i :: 0 <= i < |xs| ==> xs[i].Scalar? then Many(Primitives(xs)) else JsonOf(v)
    case Dict(_) => JsonOf(v)
  }

  /** The specification of `clean_props`: None is dropped, everything else is stored flat. */
  function Clean(raw: RawProps): Props {
    map key | key in raw && !raw[key].Null? :: CleanValue(raw[key])
  }

  method CleanProps(raw: RawProps) returns (clean: Props)
    ensures clean == Clean(raw)
  {
    clean := map[];
    var left := raw.Keys;
    while left != {}
      invariant left <= raw.Keys
      invariant clean == map key | key in raw && key !in left && !raw[key].Null? :: CleanValue(raw[key])
      decreases left
    {
      var key :| key in left;
      if !raw[key].Null? {
        clean := clean[key := CleanValue(raw[key])];
      }
      left := left - {key};
    }
  }

  /** Cleaning an overridden dict is overriding the cleaned dict exactly when no None in the
      override hides a value underneath: `{"surface_form": s, **props}` loses `surface_form`
      when `props` maps it to None. */
  lemma {:induction false} CleanOverride(under: RawProps, over: RawProps)
    ensures Clean(under + over) == Clean(under) + Clean(over)
       <==> forall key :: key in over && over[key].Null? ==> key !in Clean(under)
  {
    var joint, apart := Clean(under + over), Clean(under) + Clean(over);
    if forall key :: key in over && over[key].Null? ==> key !in Clean(under) {
      forall key
        ensures key in joint <==> key in apart
        ensures key in joint ==> joint[key] == apart[key]
      {
      }
      assert joint == apart;
    } else {
      var key :| key in over && over[key].Null? && key in Clean(under);
      assert key in apart && key !in joint;
    }
  }

  /** Every entry of `small` is in `big` with the same value. */
  ghost predicate Submap(small: Props, big: Props) {
    forall key :: key in small ==> key in big && big[key] == small[key]
  }

  const VERSION_KEYS: set<string> := {"created_version", "updated_version"}

  /** A property map with the two version stamps left out. */
  function Erased(p: Props): Props {
    p - VERSION_KEYS
  }

  lemma {:induction false} ErasedMerge(a: Props, b: Props)
    ensures Erased(a + b) == Erased(a) + Erased(b)
  {
  }

  predicate Storable(v: RawValue) {
    v.Scalar? || (v.ListOf? && forall i :: 0 <= i < |v.xs| ==> v.xs[i].Scalar?)
  }

  /** Cleaning keeps every value apart from None: different values stay different, and json text is used
      for nothing that can be stored as it is. */
  lemma {:induction false} CleanLosesNothing(v: RawValue, w: RawValue)
    requires !v.Null? && !w.Null?
    ensures CleanValue(v) == CleanValue(w) <==> v == w
    ensures CleanValue(v).JsonOf? <==> !Storable(v)
  {
    if CleanValue(v) == CleanValue(w) && CleanValue(v).Many? {
      assert v.xs == w.xs;
    }
  }
}
