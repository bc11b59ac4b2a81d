/** A major spending category with the list of its minor categories. */
module Categories {
  import opened Sorting
  import opened Text

  class Category {
    var name: string
    var minors: seq<string>

    /** Keeps the given list as it is: no copy is sorted. */
    constructor (name: string, minors: seq<string>)
      ensures this.name == name && this.minors == minors
    {
      this.name := name;
      this.minors := minors;
    }

    /** Sorts the minor categories alphabetically. */
    method Sort()
      modifies this
      ensures minors == SortStrings(old(minors))
      ensures multiset(minors) == multiset(old(minors)) && SortedBy(minors, StrLe)
      ensures old(minors) == [] ==> minors == []
      ensures name == old(name)
    {
      if |minors| > 0 {
        minors := SortStrings(minors);
      }
    }
  }
}
