/** Account tiers: which features a user type unlocks and the badge classes
    shown for it. The user type is the string kept in browser storage. */
module Accounts {

  const Basic := "basic"
  const Premium := "premium"
  const Enterprise := "enterprise"
  const Admin := "admin"

  const BasicClass := "bg-gray-200 text-gray-800"
  const PremiumClass := "bg-purple-200 text-purple-800"
  const EnterpriseClass := "bg-blue-200 text-blue-800"
  const AdminClass := "bg-red-200 text-red-800"

  /** `hasPremiumAccess` (both managers): the type is one of the three paying tiers. */
  predicate HasPremiumAccess(userType: string)
  {
    userType in [Premium, Enterprise, Admin]
  }

  /** `hasAdminAccess` (both managers): the type is exactly 'admin'. */
  predicate HasAdminAccess(userType: string)
  {
    userType == Admin
  }

  /** Admin access implies premium access, and the tiers are exactly the
      ones named: 'basic' and every unknown type get neither. */
  lemma AccessTiers(userType: string)
    ensures HasAdminAccess(userType) ==> HasPremiumAccess(userType)
    ensures HasPremiumAccess(userType) <==> userType == Premium || userType == Enterprise || userType == Admin
    ensures HasAdminAccess(userType) <==> userType == Admin
    ensures userType == Basic ==> !HasPremiumAccess(userType) && !HasAdminAccess(userType)
  {
  }

  /** `AuthManager.getAccountTypeClass`: a switch over the four tiers. */
  function AccountTypeClass(userType: string): (c: string)
  {
    if userType == Basic then BasicClass
    else if userType == Premium then PremiumClass
    else if userType == Enterprise then EnterpriseClass
    else if userType == Admin then AdminClass
    else BasicClass
  }

  /** The class table of `UserManager.getAccountTypeClass`. */
  const ClassTable: map<string, string> :=
    map[Basic := BasicClass, Premium := PremiumClass,
        Enterprise := EnterpriseClass, Admin := AdminClass]

  /** `classes[type] || classes.basic` over `ClassTable`. */
  function AccountTypeClassByTable(userType: string): (c: string)
  {
    if userType in ClassTable && ClassTable[userType] != "" then ClassTable[userType] else ClassTable[Basic]
  }

  /** Each of the four tiers has its own badge class, and every other type
      gets the basic one. */
  lemma AccountTypeClassDistinct(userType: string)
    ensures AccountTypeClass(Basic) == BasicClass && AccountTypeClass(Premium) == PremiumClass
    ensures AccountTypeClass(Enterprise) == EnterpriseClass && AccountTypeClass(Admin) == AdminClass
    ensures |{BasicClass, PremiumClass, EnterpriseClass, AdminClass}| == 4
    ensures userType !in {Basic, Premium, Enterprise, Admin} ==> AccountTypeClass(userType) == BasicClass
    ensures AccountTypeClass(userType) == AdminClass <==> HasAdminAccess(userType)
    ensures AccountTypeClass(userType) == BasicClass <==> !HasPremiumAccess(userType)
    ensures AccountTypeClass(userType) in {BasicClass, PremiumClass, EnterpriseClass, AdminClass}
  {
  }

  /** The switch and the table lookup give every user type the same class. */
  lemma AccountTypeClassAgree(userType: string)
    ensures AccountTypeClassByTable(userType) == AccountTypeClass(userType)
  {
  }
}
