/**
 * The role table (config/roles_config.py): every advertised position with its
 * display name, accepted salary multipliers, job-description file and question
 * categories, and the lookup and validation functions over it.
 */
module RolesConfig {
  import opened Wrappers
  import opened Tables

  /** An entry of `ROLES`; the free-text `description` is not kept. */
  datatype RoleConfig = RoleConfig(name: string, salaryMultipliers: seq<int>, jobDescriptionFile: string, categories: seq<string>)

  const AllCategories: seq<string> := ["professional_experience", "theoretical_knowledge", "practical_application"]

  const Roles: seq<(string, RoleConfig)> := [
    ("kidemli_yazilim_gelistirme_uzmani",
     RoleConfig("Kıdemli Yazılım Geliştirme Uzmanı", [3], "kidemli_yazilim_gelistirme_uzmani_3x.txt", AllCategories)),
    ("yazilim_gelistirme_uzmani",
     RoleConfig("Yazılım Geliştirme Uzmanı", [2], "yazilim_gelistirme_uzmani_2x.txt", AllCategories)),
    ("kidemli_mobil_yazilim_gelistirme_uzmani",
     RoleConfig("Kıdemli Mobil Yazılım Geliştirme Uzmanı", [3], "kidemli_mobil_yazilim_gelistirme_uzmani_3x.txt", AllCategories)),
    ("mobil_yazilim_gelistirme_uzmani",
     RoleConfig("Mobil Yazılım Geliştirme Uzmanı", [2], "mobil_yazilim_gelistirme_uzmani_2x.txt", AllCategories)),
    ("kidemli_veritabani_uzmani",
     RoleConfig("Kıdemli Veritabanı Uzmanı (PostgreSQL)", [3], "kidemli_veritabani_uzmani_postgresql_3x.txt", AllCategories)),
    ("devops_uzmani",
     RoleConfig("DevOps Uzmanı", [3], "devops_uzmani_3x.txt", AllCategories)),
    ("kidemli_ag_uzmani",
     RoleConfig("Kıdemli Ağ Uzmanı", [3], "kidemli_ag_uzmani_3x.txt", AllCategories)),
    ("ag_uzmani",
     RoleConfig("Ağ Uzmanı", [2], "ag_uzmani_2x.txt", AllCategories)),
    ("kidemli_sistem_uzmani",
     RoleConfig("Kıdemli Sistem Uzmanı", [3], "kidemli_sistem_uzmani_3x.txt", AllCategories)),
    ("sistem_uzmani_microsoft",
     RoleConfig("Sistem Uzmanı (Microsoft)", [2], "sistem_uzmani_microsoft_2x.txt", AllCategories)),
    ("sistem_uzmani_linux",
     RoleConfig("Sistem Uzmanı (Linux)", [2], "sistem_uzmani_linux_2x.txt", AllCategories)),
    ("kidemli_siber_guvenlik_uzmani",
     RoleConfig("Kıdemli Siber Güvenlik Uzmanı", [3], "kidemli_siber_guvenlik_uzmani_3x.txt", AllCategories)),
    ("is_analisti",
     RoleConfig("İş Analisti", [2], "is_analisti_2x.txt", AllCategories))
  ]

  /** `get_role_config`: the table entry, or `None` for the `KeyError` of an unknown code. */
  function GetRoleConfig(code: string): (r: Option<RoleConfig>)
    ensures r.Some? <==> code in Codes(Roles)
    ensures r.Some? ==> (code, r.value) in Roles
  {
    Lookup(Roles, code)
  }

  /** `get_available_roles`: one (code, name) pair per role, in table order. */
  function GetAvailableRoles(): (r: seq<(string, string)>)
    ensures |r| == |Roles|
    ensures forall i :: 0 <= i < |r| ==> r[i].0 == Roles[i].0 && r[i].1 == Roles[i].1.name
  {
    seq(|Roles|, i requires 0 <= i < |Roles| => (Roles[i].0, Roles[i].1.name))
  }

  /** `validate_role_config`: the multiplier is one the role accepts; an unknown role is invalid rather than an error. */
  function ValidateRoleConfig(code: string, multiplier: int): (r: bool)
    ensures r ==> code in Codes(Roles)
  {
    match GetRoleConfig(code)
    case None => false
    case Some(cfg) => multiplier in cfg.salaryMultipliers
  }

  /** Validation against the table itself: some entry for the code accepts the multiplier. */
  lemma ValidateRoleConfigIff(code: string, multiplier: int)
    ensures ValidateRoleConfig(code, multiplier) <==> exists cfg :: (code, cfg) in Roles && multiplier in cfg.salaryMultipliers
  {
    RoleCodesDistinct();
    if cfg :| (code, cfg) in Roles && multiplier in cfg.salaryMultipliers {
      var i :| 0 <= i < |Roles| && Roles[i] == (code, cfg);
      LookupFindsEntry(Roles, i);
    }
  }

  lemma RoleCodesDistinct()
    ensures forall a, b :: 0 <= a < b < |Roles| ==> Roles[a].0 != Roles[b].0
  {
  }

  /** Every listed role resolves, to the entry with the listed name. */
  lemma AvailableRolesResolve(i: nat)
    requires i < |GetAvailableRoles()|
    ensures GetRoleConfig(GetAvailableRoles()[i].0).Some?
    ensures GetRoleConfig(GetAvailableRoles()[i].0).value.name == GetAvailableRoles()[i].1
  {
    RoleCodesDistinct();
    LookupFindsEntry(Roles, i);
  }

  function Multipliers(i: nat): seq<int>
    requires i < |Roles|
  {
    Roles[i].1.salaryMultipliers
  }

  lemma TableMultipliers(i: nat)
    requires i < |Roles|
    ensures Multipliers(i) == [2] || Multipliers(i) == [3]
  {
  }

  /** Every position is advertised at exactly 2x or 3x: no role accepts any other multiplier. */
  lemma OnlyTwoOrThreeX(code: string, multiplier: int)
    requires ValidateRoleConfig(code, multiplier)
    ensures multiplier == 2 || multiplier == 3
  {
    var cfg := GetRoleConfig(code).value;
    var i :| 0 <= i < |Roles| && Roles[i] == (code, cfg);
    TableMultipliers(i);
  }

  lemma TableCategories(i: nat)
    requires i < |Roles|
    ensures Roles[i].1.categories == AllCategories
  {
  }

  /** Every role uses all three question categories. */
  lemma EveryRoleUsesAllCategories(code: string)
    requires GetRoleConfig(code).Some?
    ensures GetRoleConfig(code).value.categories == AllCategories
  {
    var cfg := GetRoleConfig(code).value;
    var i :| 0 <= i < |Roles| && Roles[i] == (code, cfg);
    TableCategories(i);
  }
}
