# Transform layer of the SCM governance import

This project models the transform layer of `iris/etl/scm.py` and proves properties about it. The layer takes blocks already parsed from the two SCM metadata files (domains and git trees). It turns them into the lists the loader synchronises:

- domains, subdomains and git trees;
- domain, subdomain and tree role records;
- the role–user, tree–licence and party–user pairs;
- the login user records.

It also feeds every role string to the user cache.

A parsed block is a map from long field name to a value (`Blocks.Block`). A value is one string, or the ordered list a repeatable field collects. Iterating over a value follows Python: a list yields its items, a string yields its characters (`Blocks.Elements`).

Three external inputs become parameters:

- the configured role set (`roles`, a sequence giving the order in which roles are visited);
- the party choices (`choices`);
- the cache lookup `uc.get` (`lookup: string -> Option<U>`, where `U` is the opaque user type).

Modules, one per concern of the source:

- `Text` — the Python unicode built-ins the layer uses: `strip`, `split(sep, 1)`, the substring test, `lower`, `endswith`.
- `Blocks` — the block representation, the field names the layer reads, and the role fields a block carries (`ROLES & set(data.keys())`).
- `Names` — `parse_name`, `rolename`, `subrolename`.
- `Roles` — the role loops shared by all three block kinds: one role record per present role, and a role–user pair per resolved role string.
- `Domains` — `transform_domains` with its two closures.
- `Trees` — `transform_trees`.
- `Users` — `transform_users`.
- `Parties` — `transform_parties`.
- `Cache` — `build_user_cache`. The user cache is a class whose state is the log of its `update` calls.

Each loop of the source is a method with a loop. Most of these loops build lists; the postcondition of such a method equals a specification function defined by recursion on the last element, and the properties are proved as lemmas about those functions. `Parties.TransformParties` instead states each element of its result directly, and the cache methods state the new contents of the cache's update log.

## Model

| member | source | states |
|---|---|---|
| Text.Strip | iris/etl/scm.py:51 | the result is a contiguous slice of the input with only whitespace before and after it; it neither starts nor ends with whitespace; it is empty iff the input is all whitespace |
| Text.SplitFirst | iris/etl/scm.py:51 | `split(sep, 1)` gives one part iff `sep` does not occur; otherwise the parts joined by `sep` rebuild the input and `sep` does not occur before the split point |
| Text.SplitFirstAt | iris/etl/scm.py:154 | an occurrence of `sep` with no earlier one is the split point: `a + sep + c` splits into `(a, c)` |
| Text.FindFrom | iris/etl/scm.py:152 | the result is the leftmost occurrence at or after the start index, or none if there is none |
| Text.SplitAfterPrefix | iris/etl/scm.py:51 | text that does not contain the separator's first character, followed by the separator, is split right after itself |
| Text.SplitFirstChar | iris/etl/scm.py:181 | split at a one-character separator that occurs gives the text before its first occurrence and the text after it |
| Text.ContainsChar | iris/etl/scm.py:181 | for a one-character separator, the substring test is character membership |
| Text.Lower | iris/etl/scm.py:181 | the result has the input's length and no ASCII capital; each ASCII capital becomes its small letter; every other character except U+0130 and U+212A is unchanged |
| Text.LowerIdempotent | iris/etl/scm.py:181 | lowering twice is lowering once |
| Blocks.PresentRoles | iris/etl/scm.py:64 | the roles visited for a block are exactly the configured roles that are keys of the block |
| Blocks.PresentRolesDistinct | iris/etl/scm.py:101 | roles from a set stay distinct after filtering by the block's keys |
| Blocks.MapBlocksAt | iris/etl/scm.py:148-157 | a per-block loop keeps the block order: the k-th result is the one computed from the k-th block |
| Blocks.FlatMapBlocksMembers | iris/etl/scm.py:124-129 | a loop that appends each block's results produces x iff some block produces x |
| Blocks.FlatMapBlocksAppend | iris/etl/scm.py:124-129 | over two runs of blocks, the loop produces the first run's results followed by the second run's |
| Names.ParseName | iris/etl/scm.py:48-56 | a name without '/' gives (stripped name, Uncategorized), or (Uncategorized, Uncategorized) when it is blank; a name with '/' gives the stripped texts before and after its first '/' |
| Names.ParseNameWithSlash | iris/etl/scm.py:51-56 | a name with '/' splits at the first '/' only; both parts are stripped; later '/'s stay in the subdomain |
| Names.ParseNameSlashOnly | iris/etl/scm.py:51-56 | empty parts are kept empty and not defaulted: "/" gives ("", "") |
| Names.RoleName | iris/etl/scm.py:75-78 | for a role code without ':', the first ':' of the role name comes right after the role code |
| Names.RoleNameRoundTrip | iris/etl/scm.py:75-78 | "role: name" reads back, at the first ": ", as the role and the name when the role has no ':' |
| Names.RoleNameInjective | iris/etl/scm.py:75-78 | when neither role code contains ':', distinct (role, name) pairs give distinct role names |
| Names.SubRoleName | iris/etl/scm.py:81-84 | for a role code without ':', the first ':' of the subdomain role name comes right after the role code |
| Names.SubRoleNameRoundTrip | iris/etl/scm.py:81-84 | "role: domain-subdomain" reads back as the role and "domain-subdomain" |
| Names.SubRoleNameCollision | iris/etl/scm.py:81-84 | different (domain, subdomain) pairs can give the same subdomain role name when a name contains '-' |
| Roles.RoleRecords | iris/etl/scm.py:116-119 | one role record per present role |
| Roles.Resolve | iris/etl/scm.py:120-123 | at most one pair per role string, every pair keyed by the role's key |
| Roles.RoleUsers | iris/etl/scm.py:107-110 | every role–user pair of a block is keyed by the block's owner and one of its present roles |
| Roles.TransRoles | iris/etl/scm.py:101-110 | the role loop of a block yields the role records and role–user pairs of the present roles, in the configured order |
| Roles.ResolveUsers | iris/etl/scm.py:107-110 | the role-string loop yields exactly the pairs of the strings the lookup resolves, in order |
| Roles.RoleRecordsExactlyOnce | iris/etl/scm.py:162-165 | a record exists for a role iff the role is configured and the block carries it; no role has two records; every record has the block's owner and the name built from its role and owner |
| Roles.RoleRecordsAt | iris/etl/scm.py:116-119 | the i-th record is that of the i-th present role |
| Roles.RoleRecordsMembers | iris/etl/scm.py:101-106 | a record is emitted iff it belongs to a present role on this owner and carries that role's name |
| Roles.ResolveMembers | iris/etl/scm.py:107-110 | (k, u) is emitted iff k is the role's key and some role string resolves to u |
| Roles.ResolveAll | iris/etl/scm.py:120-123 | unresolved strings are skipped: one pair per string iff all resolve, and no pair iff none resolves |
| Roles.RoleUsersMembers | iris/etl/scm.py:162-169 | (k, u) is a pair of a block iff k is a present role on this owner and one of that role's strings resolves to u |
| Domains.TransDomain | iris/etl/scm.py:112-123 | a block without PARENT gives the domain named by its DOMAIN text, plus the role records and pairs owned by that domain |
| Domains.TransSubdomain | iris/etl/scm.py:97-110 | a PARENT block gives the subdomain and domain named by parse_name of its DOMAIN, plus the role records and pairs owned by that subdomain |
| Domains.TransformDomains | iris/etl/scm.py:87-137 | domains are Uncategorized followed by the non-PARENT blocks' domains; subdomains are the PARENT blocks' subdomains followed by one Uncategorized subdomain per domain; both role lists and both pair lists are split by PARENT; every domain has an Uncategorized subdomain |
| Domains.UncategorizedSubdomains | iris/etl/scm.py:132-134 | one Uncategorized subdomain per domain, in the domains' order |
| Domains.UncategorizedAt | iris/etl/scm.py:133-134 | the k-th default subdomain belongs to the k-th domain |
| Domains.DomainEntriesMembers | iris/etl/scm.py:112-115 | a domain is listed iff some block without PARENT names it |
| Domains.SubdomainEntriesMembers | iris/etl/scm.py:97-100 | a subdomain is listed iff some PARENT block describes it |
| Domains.EntriesAppend | iris/etl/scm.py:125-130 | input order is kept: the entries of concatenated block lists are the concatenated entries |
| Domains.EntriesPartition | iris/etl/scm.py:125-130 | the number of domain entries plus the number of subdomain entries is the number of blocks |
| Domains.BlockRolesMembers | iris/etl/scm.py:101-106 | a role record of either side is listed iff some block of that side carries the role and the record has that block's owner and name |
| Trees.DefaultedName | iris/etl/scm.py:151-153 | an empty value becomes "Uncategorized / Uncategorized"; a name containing " / " is kept; any other name gets " / Uncategorized" appended; the result always contains " / " |
| Trees.TreeDomainSplit | iris/etl/scm.py:154 | the domain and subdomain are the two sides of the first " / " of the defaulted name |
| Trees.TreeOf | iris/etl/scm.py:149-157 | the tree is keyed by the block's TREE PATH; its domain and subdomain names are the two sides of the first " / " of the defaulted domain name |
| Trees.LicensePairs | iris/etl/scm.py:159-160 | one pair per licence |
| Trees.Trees | iris/etl/scm.py:148-157 | one tree per block |
| Trees.TransTree | iris/etl/scm.py:149-169 | one block gives its tree (keyed by its TREE PATH), its licence pairs, and its role records and pairs |
| Trees.TransLicenses | iris/etl/scm.py:159-160 | the licence loop yields one pair per licence, in order |
| Trees.TransformTrees | iris/etl/scm.py:140-171 | the four lists are the blocks' contributions, block by block, in input order |
| Trees.TreeAt | iris/etl/scm.py:155-157 | the k-th tree is the tree of the k-th block |
| Trees.LicensePairsAt | iris/etl/scm.py:159-160 | the k-th licence pair names the tree's path and its k-th licence |
| Trees.TreeLicensesMembers | iris/etl/scm.py:159-160 | a (tree, licence) pair is emitted iff some block with that path lists that licence |
| Trees.LicensePairsMembers | iris/etl/scm.py:159-160 | a (tree, licence) pair comes from a block iff the tree key is the block's path and the block lists the licence |
| Trees.NoLicenses | iris/etl/scm.py:159 | a block without LICENSES gives no licence pair |
| Trees.NoDomainSplit | iris/etl/scm.py:147 | the default name is kept by the defaults and splits into (Uncategorized, Uncategorized) |
| Trees.TreeDomainDefault | iris/etl/scm.py:151 | a missing or empty first DOMAIN value gives domain and subdomain Uncategorized |
| Trees.PlainNameSplit | iris/etl/scm.py:152-154 | a non-empty name without " / " that does not end in " /" splits, after the default subdomain is appended, into itself and Uncategorized |
| Trees.NoSeparatorBefore | iris/etl/scm.py:153 | appending the separator to such a name creates no earlier occurrence of it |
| Trees.TreeDomainPlain | iris/etl/scm.py:151-157 | a tree whose first DOMAIN value is non-empty, has no " / " and does not end in " /" is filed under that domain's Uncategorized subdomain |
| Trees.TrailingSlashSplit | iris/etl/scm.py:152-154 | a name ending in " /" splits inside itself: "Base /" gives ("Base", "/ Uncategorized") |
| Users.TransformUsers | iris/etl/scm.py:192-200 | one login record per cached record, in order: the record plus a username equal to its email, with no other change |
| Users.Login | iris/etl/scm.py:200 | one login record has the cached record's keys plus username, agrees with the record off username, and its username is its email |
| Users.TransformUsersInverse | iris/etl/scm.py:200 | removing the username gives back exactly the cached records |
| Parties.TransformParties | iris/etl/scm.py:174-189 | one party record per choice, in order, with the choice's party code and name; exactly one (party, user) pair per user, in order, naming the party of the user's email |
| Parties.PairUsers | iris/etl/scm.py:180-188 | the user loop makes exactly one pair per user, in order, by the loop body |
| Parties.EmailSuffix | iris/etl/scm.py:181 | the suffix is the lower-cased text after the email's first '@' |
| Parties.PartyOf | iris/etl/scm.py:182-187 | INTEL iff the suffix ends with intel.com; SAMSUNG iff it ends with samsung.com; TIZEN iff neither |
| Parties.EmailSuffixOf | iris/etl/scm.py:181 | the suffix is the lower-cased text after the first '@'; later '@'s stay in it |
| Parties.DomainsExclusive | iris/etl/scm.py:182-185 | no suffix ends with both intel.com and samsung.com |
| Parties.PartyIgnoresCase | iris/etl/scm.py:181 | the party does not depend on the letter case of the email's domain |
| Parties.SuffixNotDomain | iris/etl/scm.py:182 | the test matches any text ending in intel.com, not only that domain: "dev@notintel.com" is INTEL |
| Cache.UserCache.constructor | iris/etl/scm.py:63 | a new cache has received no updates |
| Cache.UserCache.Update | iris/etl/scm.py:67 | an update appends its string to the log |
| Cache.BuildUserCache | iris/etl/scm.py:59-72 | a fresh cache updated with every role string of the domain blocks, then of the tree blocks, in order |
| Cache.UpdateBlocks | iris/etl/scm.py:64-67 | one block loop adds the role strings of its blocks, block by block |
| Cache.UpdateBlock | iris/etl/scm.py:65-67 | the role loop adds the strings of the block's present roles in the configured order |
| Cache.UpdateStrings | iris/etl/scm.py:66-67 | the string loop adds each role string once, in order |
| Cache.BlockRoleStringsMembers | iris/etl/scm.py:65-67 | a block's role strings are exactly those listed by a configured role field it carries |
| Cache.CacheStringsMembers | iris/etl/scm.py:64-71 | the cache receives a string iff it is a role string of some block |
| Cache.PairFromCachedString | iris/etl/scm.py:107-110 | every user in a role–user pair was looked up from a string the cache received |

## Left out

- `from_string`, `from_unicode` and `from_file` (iris/etl/scm.py:203-273) are not modelled: byte decoding, file reads and the loader calls. The order of the sync, link and delete calls is not modelled either.
- `parse_blocks`, `UserCache` and `get_default_loader` come from `iris/etl/parser.py` and `iris/etl/loader.py`, which are not part of this model.
  - The cache is reduced to the log of its `update` calls.
  - `uc.get` is the `lookup` parameter.
  - `uc.all()` is the input of `Users.TransformUsers`.
- `MAPPING` (the short field-code table) is used only by the block parser, so it is not modelled.
- The Django models and the `role_choices` / `party_choices` enumerations are parameters.
- Entity dicts are datatypes with the same fields. User records are string-to-string maps.
- Roles.TransRoles: `ROLES & set(data.keys())` is a Python set, whose iteration order is unspecified. The model visits roles in the order of the `roles` sequence. `Roles.RoleRecordsExactlyOnce` assumes the configured roles are distinct, as a set's are. The entry points `Domains.TransformDomains`, `Trees.TransformTrees` and `Cache.BuildUserCache` do not require the `roles` sequence to be free of repeats; callers pass a sequence without repeats, as the source's set is. A repeated role would be visited twice, which the source cannot do.
- Roles.ResolveUsers: `if user:` is modelled as "the lookup returned a user". A found user object that Python would treat as false is not modelled.
- Domains.TransformDomains: the closures `_trans_domain` and `_trans_subdomain` return their additions, and the caller appends them. The resulting lists are the same, but the model does not share the list objects between functions.
- Text.Lower: beyond ASCII, only U+0130 and U+212A are lowered (to 'i' and 'k'). These are the only characters whose lower case is ASCII, so the party tests are unaffected. Other non-ASCII letters are left unchanged.
- Text.Strip: only the unicode whitespace set is modelled. Byte-string `strip` is not needed, because the layer runs on decoded text.
- Errors are preconditions, not modelled error paths:
  - a missing DOMAIN in a domain block (KeyError);
  - a list DOMAIN in a domain block, which `parse_name` cannot split (AttributeError);
  - a missing TREE PATH;
  - an empty DOMAIN list in a tree block (IndexError);
  - an email without '@' (IndexError);
  - a missing email (KeyError);
  - a cached user record that already has a username (TypeError).

  Tree blocks are required to carry TREE PATH as text, as the parser produces it.
- Domains.TransformDomains: every domain block must carry DOMAIN as text. For a block without PARENT, Python would not fail on a list DOMAIN; it would use the list itself as the domain name. The parser produces text there, so that case is not modelled.
