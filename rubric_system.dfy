/**
 * The K1-K5 rubric (config/rubric_system.py): the share of each cognitive
 * level in an interview, chosen by the salary multiplier of the position, and
 * the level and coefficient label tables.
 *
 * A distribution is the source's dict as its items in insertion order: a
 * sequence of (level key, percentage) pairs.
 */
module RubricSystem {
  import opened Text
  import opened Wrappers
  import opened Tables

  type Distribution = seq<(string, int)>

  /** The level keys, in the order every distribution lists them. */
  const LevelKeys: seq<string> := ["K1_Temel_Bilgi", "K2_Uygulamali", "K3_Hata_Cozumleme", "K4_Tasarim", "K5_Stratejik"]

  /** `sum(distribution.values())`. */
  function Total(d: Distribution): int
  {
    if |d| == 0 then 0 else Total(d[..|d| - 1]) + d[|d| - 1].1
  }

  function Tier(k1: int, k2: int, k3: int, k4: int, k5: int): (r: Distribution)
    ensures Codes(r) == LevelKeys
  {
    [(LevelKeys[0], k1), (LevelKeys[1], k2), (LevelKeys[2], k3), (LevelKeys[3], k4), (LevelKeys[4], k5)]
  }

  /** `get_difficulty_distribution_by_multiplier`: the tier for 2x, 3x, 4x, and 5x and above. */
  function DistributionByMultiplier(m: int): (r: Distribution)
    ensures Codes(r) == LevelKeys
  {
    if m <= 2 then Tier(45, 40, 10, 5, 0)
    else if m <= 3 then Tier(20, 25, 35, 20, 0)
    else if m <= 4 then Tier(5, 15, 25, 35, 20)
    else Tier(5, 10, 20, 30, 35)
  }

  lemma TierTotal(k1: int, k2: int, k3: int, k4: int, k5: int)
    ensures Total(Tier(k1, k2, k3, k4, k5)) == k1 + k2 + k3 + k4 + k5
  {
    var t := Tier(k1, k2, k3, k4, k5);
    assert Total(t[..1]) == k1 by { assert t[..1][..0] == []; }
    assert Total(t[..2]) == k1 + k2 by { assert t[..2][..1] == t[..1]; }
    assert Total(t[..3]) == k1 + k2 + k3 by { assert t[..3][..2] == t[..2]; }
    assert Total(t[..4]) == k1 + k2 + k3 + k4 by { assert t[..4][..3] == t[..3]; }
    assert t[..5] == t;
  }

  /** Every tier's percentages are non-negative and add up to 100. */
  lemma DistributionIsPercentages(m: int)
    ensures Total(DistributionByMultiplier(m)) == 100
    ensures forall i :: 0 <= i < |LevelKeys| ==> 0 <= DistributionByMultiplier(m)[i].1 <= 100
  {
    if m <= 2 { TierTotal(45, 40, 10, 5, 0); }
    else if m <= 3 { TierTotal(20, 25, 35, 20, 0); }
    else if m <= 4 { TierTotal(5, 15, 25, 35, 20); }
    else { TierTotal(5, 10, 20, 30, 35); }
  }

  /** Strategic questions appear only from the 4x tier on. */
  lemma NoStrategicBelowFourX(m: int)
    ensures DistributionByMultiplier(m)[4].1 == 0 <==> m <= 3
  {
  }

  /** A multiplier of 2 or less (0 and negatives included) gets the junior table; 5 or more the leadership one. */
  lemma OutOfRangeMultipliersClamp(m: int)
    ensures m <= 2 ==> DistributionByMultiplier(m) == DistributionByMultiplier(2)
    ensures m >= 5 ==> DistributionByMultiplier(m) == DistributionByMultiplier(5)
  {
  }

  /** A higher multiplier never raises the basic share nor lowers the strategic one. */
  lemma SeniorityShiftsShares(m: int, n: int)
    requires m <= n
    ensures DistributionByMultiplier(n)[0].1 <= DistributionByMultiplier(m)[0].1
    ensures DistributionByMultiplier(m)[4].1 <= DistributionByMultiplier(n)[4].1
  {
  }

  /** An entry of `RUBRIC_LEVELS`. */
  datatype RubricLevel = RubricLevel(name: string, description: string, focus: seq<string>)

  const RubricLevels: seq<(string, RubricLevel)> := [
    (LevelKeys[0], RubricLevel("Temel Bilgi", "Tanım, kavram açıklama (kod içermez)",
                               ["temel_kavramlar", "definisyonlar", "terminoloji"])),
    (LevelKeys[1], RubricLevel("Uygulamalı Bilgi", "Konfigürasyon, yöntem, kullanım önerisi (kod içermez)",
                               ["konfigurasyon", "metodoloji", "uygulama_ornekleri"])),
    (LevelKeys[2], RubricLevel("Hata Çözümleme", "Log analizi, hata tespiti ve değerlendirme (kod içermez)",
                               ["log_analizi", "hata_tespiti", "troubleshooting"])),
    (LevelKeys[3], RubricLevel("Tasarım", "Mimari yapı, teknoloji karşılaştırması, ölçeklenebilirlik",
                               ["mimari_tasarim", "teknoloji_secimi", "olceklendirme"])),
    (LevelKeys[4], RubricLevel("Stratejik", "Süreç iyileştirme, teknoloji seçimi, karar gerekçesi",
                               ["liderlik", "strateji", "surec_iyilestirme", "karar_verme"]))
  ]

  /** `RUBRIC_LEVELS[key]`, `None` standing for the `KeyError` of an unknown key. */
  function RubricLevelOf(key: string): (r: Option<RubricLevel>)
    ensures r.Some? <==> key in LevelKeys
  {
    assert Codes(RubricLevels) == LevelKeys;
    Lookup(RubricLevels, key)
  }

  /** An entry of `DIFFICULTY_LABELS`. */
  datatype DifficultyLabel = DifficultyLabel(name: string, tag: string, description: string)  // tag: the "label" entry

  /** `DIFFICULTY_LABELS.get(c)`. */
  function DifficultyLabelOf(c: int): (r: Option<DifficultyLabel>)
    ensures r.Some? <==> 2 <= c <= 5
  {
    if c == 2 then Some(DifficultyLabel("Junior", "2x", "Temel seviye"))
    else if c == 3 then Some(DifficultyLabel("Mid", "3x", "Orta seviye"))
    else if c == 4 then Some(DifficultyLabel("Senior", "4x", "İleri seviye"))
    else if c == 5 then Some(DifficultyLabel("Lead", "5x", "Liderlik seviye"))
    else None
  }

  /** The label of every tabulated coefficient is the coefficient followed by `x`. */
  lemma LabelsNameTheirCoefficient(c: int)
    requires 2 <= c <= 5
    ensures DifficultyLabelOf(c).value.tag == IntToString(c) + "x"
  {
  }
}
