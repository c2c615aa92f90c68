/** Linked lists kept as an array of links, as page_free_list and env_free_list are. */
module Links {
  const NULL := -1

  // Following the links from `head` visits exactly `free`, and then null.
  ghost predicate ListFrom(head: int, links: seq<int>, free: seq<nat>)
    decreases |free|
  {
    if free == [] then head == NULL
    else head == free[0] && free[0] < |links| && ListFrom(links[free[0]], links, free[1..])
  }

  lemma {:induction false} ListFrame(head: int, links: seq<int>, free: seq<nat>, p: nat, q: int)
    requires ListFrom(head, links, free) && p < |links| && p !in free
    ensures ListFrom(head, links[p := q], free)
    decreases |free|
  {
    if free != [] {
      ListFrame(links[free[0]], links, free[1..], p, q);
    }
  }
}
