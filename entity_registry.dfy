/// The decision `GenericConnect.manage` takes for one entity of the data
/// model: can it be given its own serial lane, and under which uniqueness key.
module EntityRegistry {

  /// One element of a uniqueness constraint: an attribute description, or
  /// anything else the model may list there (a plain name, a relationship).
  datatype ConstraintElement = AttributeElement(name: string) | OtherElement

  type Constraint = seq<ConstraintElement>

  /// The parts of an entity description that registration reads and writes.
  /// `uniquenessAttributes` is the declared key as the entity's settings
  /// leave it; `managed` is the flag registration sets.
  datatype Entity = Entity(
    attributeNames: set<string>,
    uniquenessAttributes: seq<string>,
    uniquenessConstraints: seq<Constraint>,
    managed: bool)

  /// Every attribute element of every constraint names an attribute of the
  /// entity, as a compiled data model guarantees.
  predicate WellFormed(e: Entity)
  {
    forall i :: 0 <= i < |e.uniquenessConstraints| ==> WithinAttributes(e.uniquenessConstraints[i], e.attributeNames)
  }

  predicate WithinAttributes(c: Constraint, attributeNames: set<string>)
  {
    forall k :: 0 <= k < |c| && c[k].AttributeElement? ==> c[k].name in attributeNames
  }

  /// Every name of a declared key is an attribute of the entity.
  predicate KeyResolvable(key: seq<string>, attributeNames: set<string>)
  {
    forall a :: a in key ==> a in attributeNames
  }

  /// Whether an entity can be given its own lane: its declared key resolves,
  /// or it declares none and has a uniqueness constraint.
  predicate CanBeManaged(e: Entity)
  {
    if e.uniquenessAttributes != [] then KeyResolvable(e.uniquenessAttributes, e.attributeNames)
    else e.uniquenessConstraints != []
  }

  /// `k` is the position of the first constraint of minimum length.
  predicate IsFirstShortest(cs: seq<Constraint>, k: int)
  {
    && 0 <= k < |cs|
    && (forall j :: 0 <= j < |cs| ==> |cs[k]| <= |cs[j]|)
    && (forall j :: 0 <= j < k ==> |cs[k]| < |cs[j]|)
  }

  /// The constraint a left-to-right scan with a strict `<` keeps.
  function FirstShortest(cs: seq<Constraint>): (k: nat)
    requires |cs| > 0
    ensures IsFirstShortest(cs, k)
  {
    if |cs| == 1 then 0
    else
      var k := FirstShortest(cs[..|cs| - 1]);
      if |cs[|cs| - 1]| < |cs[k]| then |cs| - 1 else k
  }

  /// There is only one first shortest constraint.
  lemma FirstShortestUnique(cs: seq<Constraint>, k: int)
    requires IsFirstShortest(cs, k)
    ensures k == FirstShortest(cs)
  {
  }

  /// The names of the attribute elements of a constraint, in order.
  function AttributeMembers(c: Constraint): (names: seq<string>)
    ensures |names| <= |c|
    ensures forall n :: n in names <==> AttributeElement(n) in c
  {
    if c == [] then []
    else
      var rest := AttributeMembers(c[..|c| - 1]);
      assert c == c[..|c| - 1] + [c[|c| - 1]];
      match c[|c| - 1]
      case AttributeElement(n) => rest + [n]
      case OtherElement => rest
  }

  /// What registration concludes about an entity: whether it is managed and
  /// the uniqueness key it is left with.
  datatype Decision = Decision(managed: bool, key: seq<string>)

  function Decide(e: Entity): (d: Decision)
    ensures d.managed == CanBeManaged(e)
    // A declared key is kept, and the entity is managed iff it resolves.
    ensures e.uniquenessAttributes != [] ==>
      d.key == e.uniquenessAttributes && (d.managed <==> KeyResolvable(e.uniquenessAttributes, e.attributeNames))
    // Without one, the attribute members of the first shortest constraint
    // become the key and the entity is managed.
    ensures e.uniquenessAttributes == [] && e.uniquenessConstraints != [] ==>
      d.managed && d.key == AttributeMembers(e.uniquenessConstraints[FirstShortest(e.uniquenessConstraints)])
    // With neither, the entity is unmanaged.
    ensures e.uniquenessAttributes == [] && e.uniquenessConstraints == [] ==> !d.managed && d.key == []
  {
    if e.uniquenessAttributes != [] then
      Decision(KeyResolvable(e.uniquenessAttributes, e.attributeNames), e.uniquenessAttributes)
    else if e.uniquenessConstraints != [] then
      Decision(true, AttributeMembers(e.uniquenessConstraints[FirstShortest(e.uniquenessConstraints)]))
    else
      Decision(false, [])
  }

  /// The entity as registration leaves it.
  function Registered(e: Entity): Entity
  {
    var d := Decide(e);
    e.(uniquenessAttributes := d.key, managed := d.managed)
  }

  /// Registering an entity a second time (as a start retried after a failed
  /// one does) reaches the same decision and changes nothing more.
  lemma RegistrationIdempotent(e: Entity)
    requires WellFormed(e)
    ensures WellFormed(Registered(e))
    ensures Decide(Registered(e)) == Decide(e)
    ensures Registered(Registered(e)) == Registered(e)
  {
  }

  /// The validation loop of `manage`: it stops at the first declared
  /// attribute the entity does not have.
  method ValidateUniquenessAttributes(declared: seq<string>, attributeNames: set<string>) returns (valid: bool)
    ensures valid <==> KeyResolvable(declared, attributeNames)
  {
    valid := true;
    var i := 0;
    while i < |declared|
      invariant 0 <= i <= |declared|
      invariant forall j :: 0 <= j < i ==> declared[j] in attributeNames
    {
      if declared[i] !in attributeNames {
        valid := false;
        break;
      }
      i := i + 1;
    }
  }

  /// The scan of `manage` for the least complex constraint; a strict `<`
  /// keeps the earliest of equally short ones.
  method ShortestConstraint(constraints: seq<Constraint>) returns (shortest: Constraint)
    requires |constraints| > 0
    ensures shortest == constraints[FirstShortest(constraints)]
  {
    shortest := constraints[0];
    ghost var k := 0;
    for i := 0 to |constraints|
      invariant 0 <= k < |constraints| && shortest == constraints[k]
      invariant k == 0 || k < i
      invariant forall j :: 0 <= j < i ==> |constraints[k]| <= |constraints[j]|
      invariant forall j :: 0 <= j < k ==> |constraints[k]| < |constraints[j]|
    {
      if |constraints[i]| < |shortest| {
        shortest := constraints[i];
        k := i;
      }
    }
    FirstShortestUnique(constraints, k);
  }

  /// The loop of `manage` that collects the names of the attribute
  /// elements of the chosen constraint.
  method AdoptedKey(shortest: Constraint) returns (names: seq<string>)
    ensures names == AttributeMembers(shortest)
  {
    names := [];
    for i := 0 to |shortest|
      invariant names == AttributeMembers(shortest[..i])
    {
      assert shortest[..i + 1][..i] == shortest[..i];
      if shortest[i].AttributeElement? {
        names := names + [shortest[i].name];
      }
    }
    assert shortest[..|shortest|] == shortest;
  }
}
