/** Domains as the route table keys them. */
module Domains {
  import opened Text

  /** A domain as the table writes it. */
  datatype Domain = Domain(name: string)

  function DomainOf(domain: string): Domain {
    Domain(NormalizeDomain(domain))
  }

  /** Normalising the key again gives the key, so removing a route by its own domain finds it. */
  predicate IsClean(domain: Domain) {
    DomainOf(domain.name) == domain
  }

  predicate EndsWith(s: string, suffix: string) {
    |suffix| <= |s| && s[|s| - |suffix|..] == suffix
  }

  lemma EndsWithExactly(s: string, suffix: string)
    ensures EndsWith(s, suffix) <==> exists front: string :: s == front + suffix
  {
    if EndsWith(s, suffix) {
      assert s == s[..|s| - |suffix|] + suffix;
    }
  }
}
