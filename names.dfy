/** Domain/subdomain name splitting and role naming (parse_name, rolename, subrolename). */
module Names {
  import opened Options
  import opened Text

  /** The name given to a missing domain or subdomain. */
  const NoName := "Uncategorized"

  /**
   * Splits "domain / subdomain" at the first '/' into a trimmed (domain, subdomain)
   * pair. Without a '/', the trimmed name is the domain and the subdomain is the
   * default one; a blank name becomes the default domain too.
   */
  function ParseName(name: string): (r: (string, string))
    ensures '/' !in name && Strip(name) != "" ==> r == (Strip(name), NoName)
    ensures '/' !in name && Strip(name) == "" ==> r == (NoName, NoName)
    ensures '/' in name ==>
      exists k :: 0 <= k < |name| && name[k] == '/' && '/' !in name[..k] && r == (Strip(name[..k]), Strip(name[k + 1..]))
  {
    ContainsChar(name, '/');
    SplitFirstChar(name, '/');
    match SplitFirst(name, "/")
    case None =>
      var only := Strip(name);
      if only != "" then (only, NoName) else (NoName, NoName)
    case Some((before, after)) => (Strip(before), Strip(after))
  }

  /**
   * A name with a '/' splits at the first one only: both parts are trimmed, any
   * later '/' stays in the subdomain, and an empty part stays empty.
   */
  lemma ParseNameWithSlash(before: string, after: string)
    requires '/' !in before
    ensures ParseName(before + "/" + after) == (Strip(before), Strip(after))
  {
    SplitAfterPrefix(before, "/", after);
  }

  /** Both parts of a split name are trimmed: an empty part is kept, never defaulted. */
  lemma ParseNameSlashOnly()
    ensures ParseName("/") == ("", "")
  {
    ParseNameWithSlash("", "");
    assert "" + "/" + "" == "/";
  }

  /** Reads a role name back: the text before the first ": " and the text after it. */
  function SplitRoleName(s: string): Option<(string, string)> {
    SplitFirst(s, ": ")
  }

  /**
   * The name of a domain or tree role, "role: name": for a role code without ':',
   * the name's first ':' is the one right after the role code.
   */
  function RoleName(role: string, name: string): (r: string)
    ensures ':' !in role ==> |role| < |r| && r[|role|] == ':' && ':' !in r[..|role|]
  {
    assert (role + ": " + name)[..|role|] == role;
    role + ": " + name
  }

  /**
   * The name of a subdomain role, "role: domain-subdomain": for a role code
   * without ':', the name's first ':' is the one right after the role code.
   */
  function SubRoleName(role: string, dname: string, sname: string): (r: string)
    ensures ':' !in role ==> |role| < |r| && r[|role|] == ':' && ':' !in r[..|role|]
  {
    assert (role + ": " + dname + "-" + sname)[..|role|] == role;
    role + ": " + dname + "-" + sname
  }

  /** A role code without ':' is recovered, with its name, from the role name. */
  lemma RoleNameRoundTrip(role: string, name: string)
    requires ':' !in role
    ensures SplitRoleName(RoleName(role, name)) == Some((role, name))
  {
    SplitAfterPrefix(role, ": ", name);
  }

  /** A subdomain role name reads back as its role and "domain-subdomain". */
  lemma SubRoleNameRoundTrip(role: string, dname: string, sname: string)
    requires ':' !in role
    ensures SplitRoleName(SubRoleName(role, dname, sname)) == Some((role, dname + "-" + sname))
  {
    assert SubRoleName(role, dname, sname) == RoleName(role, dname + "-" + sname);
    RoleNameRoundTrip(role, dname + "-" + sname);
  }

  lemma RoleNameInjective(role1: string, name1: string, role2: string, name2: string)
    requires ':' !in role1 && ':' !in role2
    requires RoleName(role1, name1) == RoleName(role2, name2)
    ensures role1 == role2 && name1 == name2
  {
    RoleNameRoundTrip(role1, name1);
    RoleNameRoundTrip(role2, name2);
  }

  /**
   * Unlike role names, subdomain role names can coincide for different subdomains
   * when a domain or subdomain name itself contains '-'.
   */
  lemma SubRoleNameCollision()
    ensures SubRoleName("MAINTAINER", "a-b", "c") == SubRoleName("MAINTAINER", "a", "b-c")
  {
  }
}
