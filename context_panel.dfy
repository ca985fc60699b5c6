/** The derived values of the context panel: the colour band of a retrieved chunk's similarity
    score and the label of an uploaded document's status badge. Scores are modelled as exact reals. */
module ContextPanel {
  import opened Wrappers

  /** The three colour bands `getSimilarityColor` chooses between, best first. */
  datatype Band = Strong | Moderate | Weak

  function BandClass(b: Band): string {
    match b
    case Strong => "text-success"
    case Moderate => "text-warning"
    case Weak => "text-text-muted"
  }

  /** A band's position, highest for the best matches. */
  function Rank(b: Band): nat {
    match b
    case Strong => 2
    case Moderate => 1
    case Weak => 0
  }

  /** The band of a similarity score: strong from 0.8 up, moderate from 0.6 up to 0.8, weak below 0.6. */
  function SimilarityBand(similarity: real): (b: Band)
    ensures b == Strong <==> similarity >= 0.8
    ensures b == Moderate <==> 0.6 <= similarity < 0.8
    ensures b == Weak <==> similarity < 0.6
  {
    if similarity >= 0.8 then Strong
    else if similarity >= 0.6 then Moderate
    else Weak
  }

  /** `getSimilarityColor(similarity)`: the CSS class of the score's band. */
  function SimilarityColor(similarity: real): (c: string)
    ensures c == "text-success" <==> similarity >= 0.8
    ensures c == "text-warning" <==> 0.6 <= similarity < 0.8
    ensures c == "text-text-muted" <==> similarity < 0.6
  {
    BandClass(SimilarityBand(similarity))
  }

  /** A higher score never gets a lower band. */
  lemma {:induction false} SimilarityBandMonotone(s: real, t: real)
    requires s <= t
    ensures Rank(SimilarityBand(s)) <= Rank(SimilarityBand(t))
  {
    if SimilarityBand(s) == Strong {
      assert SimilarityBand(t) == Strong;
    } else if SimilarityBand(s) == Moderate {
      assert SimilarityBand(t) != Weak;
    }
  }

  /** The processing status of a document in the vector store. */
  datatype DocStatus = Processed | Processing | Failed

  datatype BadgeVariant = Secondary | Destructive

  /** The badge `getStatusBadge` draws: its variant and its text. */
  datatype Badge = Badge(variant: BadgeVariant, caption: string)

  /** Reads a badge caption back to the status it stands for. */
  function StatusOfCaption(caption: string): Option<DocStatus> {
    if caption == "Processed" then Some(Processed)
    else if caption == "Processing" then Some(Processing)
    else if caption == "Failed" then Some(Failed)
    else None
  }

  /** `getStatusBadge(status)`: defined for every status, and its label identifies the status,
      so no two statuses share a label. Only a failure is drawn as destructive. */
  function StatusBadge(status: DocStatus): (b: Badge)
    ensures StatusOfCaption(b.caption) == Some(status)
    ensures b.variant == Destructive <==> status == Failed
  {
    match status
    case Processed => Badge(Secondary, "Processed")
    case Processing => Badge(Secondary, "Processing")
    case Failed => Badge(Destructive, "Failed")
  }

  /** Distinct statuses get distinct labels. */
  lemma StatusBadgeInjective(s: DocStatus, t: DocStatus)
    requires s != t
    ensures StatusBadge(s).caption != StatusBadge(t).caption
  {
    assert StatusOfCaption(StatusBadge(s).caption) == Some(s);
    assert StatusOfCaption(StatusBadge(t).caption) == Some(t);
  }
}
