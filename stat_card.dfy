/** The numbers behind a stat card (src/components/dashboard/StatCard.tsx):
    the progress clamp, the default for an omitted progress, the percentage
    label and the icon fallback. */
module StatCard {
  import opened Types

  /** `Math.min(Math.max(progress, 0), 1)`. */
  function Clamp(p: real): (r: real)
    ensures 0.0 <= r <= 1.0
    ensures 0.0 <= p <= 1.0 ==> r == p
    ensures p < 0.0 ==> r == 0.0
    ensures p > 1.0 ==> r == 1.0
  {
    var lower := if p > 0.0 then p else 0.0;
    if lower < 1.0 then lower else 1.0
  }

  /** Clamping twice is clamping once. */
  lemma ClampIdempotent(p: real)
    ensures Clamp(Clamp(p)) == Clamp(p)
  {
  }

  /** `Math.round(x)`: the nearest integer, halves rounded up. */
  function Round(x: real): (n: int)
    ensures x - 0.5 < n as real <= x + 0.5
  {
    (x + 0.5).Floor
  }

  datatype CardView<Icon> = CardView(showBar: bool, safeProgress: real, percent: int, shownIcon: Icon)

  /** A card's derived values: `progress` defaults to 0 when omitted, so the
      bar is always drawn; the label is the clamped percentage, between 0
      and 100; the icon is `progressIcon`, or `icon` when that is omitted. */
  function View<Icon>(progress: Option<real>, icon: Icon, progressIcon: Option<Icon>): (v: CardView<Icon>)
    ensures v.showBar
    ensures 0.0 <= v.safeProgress <= 1.0 && 0 <= v.percent <= 100
    ensures progress.None? ==> v.safeProgress == 0.0 && v.percent == 0
    ensures progress.Some? ==> v.safeProgress == Clamp(progress.value)
    ensures v.percent == Round(v.safeProgress * 100.0)
    ensures v.safeProgress - 0.005 < v.percent as real / 100.0 <= v.safeProgress + 0.005
    ensures v.shownIcon == if progressIcon.Some? then progressIcon.value else icon
  {
    var p := match progress case Some(x) => x case None => 0.0;
    var safe := Clamp(p);
    CardView(true, safe, Round(safe * 100.0), match progressIcon case Some(i) => i case None => icon)
  }
}
