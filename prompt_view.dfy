/** The list container of the popup, as the children the render function
    leaves in it: either the single empty-state placeholder or one card per
    prompt, each tagged with its prompt's id (the `data-prompt-id`
    attribute). Markup, icons and styling are not modelled. */
module PromptView {
  import opened PromptList

  /** A card shows the title and the text it was built from; the HTML
      escaping applied to them is the browser's and is not modelled. */
  datatype Element = EmptyState | Card(promptId: string, title: string, text: string)

  /** `createPromptCard`. */
  function CardOf(p: Prompt): Element
  {
    Card(p.id, p.title, p.text)
  }

  /** The cards of a list, first prompt first. */
  function CardsOf(ps: seq<Prompt>): seq<Element>
  {
    if ps == [] then [] else [CardOf(ps[0])] + CardsOf(ps[1..])
  }

  /** What `renderPrompts(ps)` leaves in the container. */
  function Rendered(ps: seq<Prompt>): seq<Element>
  {
    if |ps| == 0 then [EmptyState] else CardsOf(ps)
  }

  /** The ids the container's cards carry, in display order. */
  function ShownIds(view: seq<Element>): seq<string>
  {
    if view == [] then []
    else (if view[0].Card? then [view[0].promptId] else []) + ShownIds(view[1..])
  }

  /** Appending one more card, as the render loop's `appendChild` does. */
  lemma {:induction false} CardsOfSnoc(ps: seq<Prompt>, p: Prompt)
    ensures CardsOf(ps + [p]) == CardsOf(ps) + [CardOf(p)]
    decreases |ps|
  {
    if ps == [] {
      assert [] + [p] == [p];
    } else {
      assert (ps + [p])[1..] == ps[1..] + [p];
      CardsOfSnoc(ps[1..], p);
    }
  }

  /** One card per prompt, in list order, each carrying its prompt's id,
      title and text, and no placeholder among them. */
  lemma {:induction false} CardsOfAt(ps: seq<Prompt>)
    ensures |CardsOf(ps)| == |ps|
    ensures forall i :: 0 <= i < |ps| ==>
      CardsOf(ps)[i] == Card(ps[i].id, ps[i].title, ps[i].text)
    decreases |ps|
  {
    if ps != [] {
      CardsOfAt(ps[1..]);
      forall i | 0 < i < |ps|
        ensures CardsOf(ps)[i] == Card(ps[i].id, ps[i].title, ps[i].text)
      {
        assert CardsOf(ps)[i] == CardsOf(ps[1..])[i - 1];
      }
    }
  }

  /** An empty list renders as the placeholder alone. */
  lemma RenderedEmpty()
    ensures Rendered([]) == [EmptyState]
    ensures ShownIds(Rendered([])) == []
  {
  }

  /** A non-empty list renders as exactly one card per prompt, in order, each
      tagged with its prompt's id, and without the placeholder. */
  lemma {:induction false} RenderedNonEmpty(ps: seq<Prompt>)
    requires ps != []
    ensures |Rendered(ps)| == |ps|
    ensures EmptyState !in Rendered(ps)
    ensures forall i :: 0 <= i < |ps| ==>
      Rendered(ps)[i].Card? && Rendered(ps)[i].promptId == ps[i].id &&
      Rendered(ps)[i].title == ps[i].title && Rendered(ps)[i].text == ps[i].text
  {
    CardsOfAt(ps);
  }

  /** The placeholder is shown exactly when the list is empty. */
  lemma {:induction false} PlaceholderIff(ps: seq<Prompt>)
    ensures EmptyState in Rendered(ps) <==> ps == []
  {
    if ps != [] {
      RenderedNonEmpty(ps);
    }
  }

  /** Reading the ids back off the rendered container gives the list's ids:
      the view correlates every card with its record. */
  lemma {:induction false} ShownIdsRendered(ps: seq<Prompt>)
    ensures ShownIds(Rendered(ps)) == Ids(ps)
  {
    if ps == [] {
      RenderedEmpty();
    } else {
      ShownIdsCards(ps);
    }
  }

  lemma {:induction false} ShownIdsCards(ps: seq<Prompt>)
    ensures ShownIds(CardsOf(ps)) == Ids(ps)
    decreases |ps|
  {
    if ps != [] {
      ShownIdsCards(ps[1..]);
      assert CardsOf(ps)[1..] == CardsOf(ps[1..]);
    }
  }
}
