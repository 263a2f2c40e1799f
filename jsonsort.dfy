/**
 * The JSON-sort handler: sixteen fixed people are sorted by the criterion
 * the language model's reply names — by (age, name) when it mentions both
 * words, by age, by name, or not at all.
 */
module JsonSort {
  import opened Text
  import opened Sorting

  datatype Person = Person(name: string, age: int)

  const PEOPLE: seq<Person> := [
    Person("Alice", 80), Person("Bob", 52), Person("Charlie", 1), Person("David", 10),
    Person("Emma", 34), Person("Frank", 17), Person("Grace", 79), Person("Henry", 61),
    Person("Ivy", 66), Person("Jack", 25), Person("Karen", 21), Person("Liam", 69),
    Person("Mary", 78), Person("Nora", 25), Person("Oscar", 12), Person("Paul", 66)]

  /** The sixteen people have distinct names, so sorting them by name, or
      by (age, name), leaves no two of them tied. */
  lemma PeopleNamesDistinct()
    ensures |PEOPLE| == 16
    ensures forall i, j :: 0 <= i < j < |PEOPLE| ==> PEOPLE[i].name != PEOPLE[j].name
  {
    forall i, j | 0 <= i < j < |PEOPLE| ensures PEOPLE[i].name != PEOPLE[j].name {
      assert PEOPLE[i].name[0] != PEOPLE[j].name[0];
    }
  }

  datatype Criterion = ByAgeThenName | ByAge | ByName | Unsorted

  function Key(c: Criterion, p: Person): seq<int>
  {
    match c
    case ByAgeThenName => [p.age] + Codes(p.name)
    case ByAge => [p.age]
    case ByName => Codes(p.name)
    case Unsorted => []
  }

  /** The criterion picked from `reply.strip().lower()`. */
  function CriterionOf(reply: string): (c: Criterion)
    ensures var t := Lower(Strip(reply));
      (c == ByAgeThenName <==> Contains(t, "age") && Contains(t, "name")) &&
      (c == ByAge <==> Contains(t, "age") && !Contains(t, "name")) &&
      (c == ByName <==> !Contains(t, "age") && Contains(t, "name")) &&
      (c == Unsorted <==> !Contains(t, "age") && !Contains(t, "name"))
  {
    var t := Lower(Strip(reply));
    if Contains(t, "age") && Contains(t, "name") then ByAgeThenName
    else if Contains(t, "age") then ByAge
    else if Contains(t, "name") then ByName
    else Unsorted
  }

  /** `sorted_json` */
  function Arrange(c: Criterion, people: seq<Person>): seq<Person>
  {
    if c == Unsorted then people else SortBy(people, p => Key(c, p))
  }

  function JsonSort(reply: string): seq<Person> { Arrange(CriterionOf(reply), PEOPLE) }

  /** Every criterion gives a reordering of the people, in its key order,
      with people of equal key in their listed order. */
  lemma ArrangeSpec(c: Criterion, people: seq<Person>)
    ensures var key := (p: Person) => Key(c, p);
      var r := Arrange(c, people);
      multiset(r) == multiset(people) && SortedBy(r, key) &&
      forall v :: WithKey(r, key, v) == WithKey(people, key, v)
  {
    var key := (p: Person) => Key(c, p);
    if c == Unsorted {
      assert forall p :: key(p) == [];
      forall i, j | 0 <= i < j < |people| ensures LexLe(key(people[i]), key(people[j])) { }
    } else {
      SortByPermutes(people, key);
      SortBySorted(people, key);
      forall v ensures WithKey(Arrange(c, people), key, v) == WithKey(people, key, v) {
        SortByStable(people, key, v);
      }
    }
  }

  /** Comparing (age, name) keys is comparing ages, then names. */
  lemma AgeThenNameOrder(p: Person, q: Person)
    ensures LexLe(Key(ByAgeThenName, p), Key(ByAgeThenName, q)) <==>
      p.age < q.age || (p.age == q.age && LexLe(Codes(p.name), Codes(q.name)))
  {
    var a, b := Key(ByAgeThenName, p), Key(ByAgeThenName, q);
    assert a[0] == p.age && a[1..] == Codes(p.name);
    assert b[0] == q.age && b[1..] == Codes(q.name);
  }

  /** Distinct people never share an (age, name) key. */
  lemma AgeThenNameInjective(p: Person, q: Person)
    requires Key(ByAgeThenName, p) == Key(ByAgeThenName, q)
    ensures p == q
  {
    var a := Key(ByAgeThenName, p);
    assert a[1..] == Codes(p.name) && Key(ByAgeThenName, q)[1..] == Codes(q.name);
    CodesInjective(p.name, q.name);
  }

  /** When no two people share an (age, name) pair, the (age, name) order
      is the only ordering of them sorted that way. */
  lemma AgeThenNameUnique(people: seq<Person>, r: seq<Person>)
    requires multiset(r) == multiset(people)
    requires SortedBy(r, p => Key(ByAgeThenName, p)) && DistinctKeys(r, p => Key(ByAgeThenName, p))
    ensures Arrange(ByAgeThenName, people) == r
  {
    var key := (p: Person) => Key(ByAgeThenName, p);
    ArrangeSpec(ByAgeThenName, people);
    SortedUnique(r, Arrange(ByAgeThenName, people), key);
  }
}
