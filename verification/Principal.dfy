/** Who a credential belongs to, and the digest that names it. */
module Principal {
  import opened Text
  import opened Platform

  const HASH_DOMAIN := "codex-pat-principal-v2\0"
  const UINT32_SPAN := 0x1_0000_0000

  /** Four big-endian bytes of `uint32(n)`. */
  function BigEndian32(n: nat): (bytes: string)
    ensures |bytes| == 4
  {
    [(n / 0x100_0000 % 0x100) as char, (n / 0x1_0000 % 0x100) as char,
     (n / 0x100 % 0x100) as char, (n % 0x100) as char]
  }

  /** What the hash of a (trimmed) account and user is taken of. */
  function Preimage(account: string, user: string): string {
    HASH_DOMAIN + BigEndian32(|account|) + account + BigEndian32(|user|) + user
  }

  function PrincipalHash(accountID: string, userID: string): (hash: string)
    ensures IsHex(hash)
  {
    LIB.digest(Preimage(TrimSpace(accountID), TrimSpace(userID)))
  }

  predicate SamePrincipal(accountID: string, userID: string, otherAccountID: string, otherUserID: string) {
    && TrimSpace(accountID) != ""
    && TrimSpace(userID) != ""
    && TrimSpace(accountID) == TrimSpace(otherAccountID)
    && TrimSpace(userID) == TrimSpace(otherUserID)
  }

  lemma BigEndian32Value(n: nat)
    ensures n % UINT32_SPAN
         == BigEndian32(n)[0] as int * 0x100_0000 + BigEndian32(n)[1] as int * 0x1_0000
          + BigEndian32(n)[2] as int * 0x100 + BigEndian32(n)[3] as int
  {
    var n1, n2, n3 := n / 0x100, n / 0x1_0000, n / 0x100_0000;
    assert n2 == n1 / 0x100 && n3 == n2 / 0x100;
    assert n == n3 / 0x100 * UINT32_SPAN + n3 % 0x100 * 0x100_0000 + n2 % 0x100 * 0x1_0000 + n1 % 0x100 * 0x100 + n % 0x100;
  }

  lemma BigEndian32Injective(m: nat, n: nat)
    requires m < UINT32_SPAN && n < UINT32_SPAN && BigEndian32(m) == BigEndian32(n)
    ensures m == n
  {
    hide BigEndian32;
    BigEndian32Value(m);
    BigEndian32Value(n);
  }

  lemma PreimageLayout(account: string, user: string)
    ensures var p, d, e := Preimage(account, user), |HASH_DOMAIN| + 4, |HASH_DOMAIN| + 4 + |account|;
            |p| == e + 4 + |user| && p[d - 4..d] == BigEndian32(|account|) && p[d..e] == account && p[e + 4..] == user
  {
  }

  /**
   The preimage determines both identifiers when their lengths fit 32 bits, so
   two principals share a hash only if the digest itself collides.
   */
  lemma PreimageInjective(account: string, user: string, account': string, user': string)
    requires |account| < UINT32_SPAN && |account'| < UINT32_SPAN
    ensures Preimage(account, user) == Preimage(account', user') <==> account == account' && user == user'
  {
    if Preimage(account, user) == Preimage(account', user') {
      PreimageLayout(account, user);
      PreimageLayout(account', user');
      BigEndian32Injective(|account|, |account'|);
    }
  }

  /**
   Without the length bound the encoding is ambiguous: an account of 2^32 bytes
   is announced with the length 0, and its own first bytes then read as the
   length of a user.
   */
  lemma LongIdentifiersCollide() returns (account: string, user: string, user': string)
    ensures |account| == UINT32_SPAN
    ensures account != "" && Preimage(account, user) == Preimage("", user')
  {
    user := "u";
    account := BigEndian32(1) + seq(UINT32_SPAN - 4, _ => 'a');
    user' := account[4..] + BigEndian32(1) + user;
    BigEndian32Wraps();
    assert |user'| == UINT32_SPAN + 1;
    calc {
      Preimage(account, user);
      HASH_DOMAIN + BigEndian32(0) + account + BigEndian32(1) + user;
      { assert account == BigEndian32(1) + account[4..]; }
      HASH_DOMAIN + BigEndian32(0) + (BigEndian32(1) + account[4..]) + BigEndian32(1) + user;
      HASH_DOMAIN + BigEndian32(0) + "" + BigEndian32(1) + (account[4..] + BigEndian32(1) + user);
      Preimage("", user');
    }
  }

  lemma BigEndian32Wraps()
    ensures BigEndian32(UINT32_SPAN) == BigEndian32(0) && BigEndian32(UINT32_SPAN + 1) == BigEndian32(1)
  {
  }

  /**
   The hash is the digest of the domain tag and of the trimmed account and user,
   each after its length.
   */
  lemma HashLayout(accountID: string, userID: string) returns (bytes: string)
    ensures PrincipalHash(accountID, userID) == LIB.digest(bytes)
    ensures var account, user := TrimSpace(accountID), TrimSpace(userID);
            && |bytes| == 31 + |account| + |user| && bytes[..23] == "codex-pat-principal-v2\0"
            && bytes[23..27] == BigEndian32(|account|) && bytes[27..27 + |account|] == account
            && bytes[27 + |account|..31 + |account|] == BigEndian32(|user|) && bytes[31 + |account|..] == user
  {
    hide TrimSpace, BigEndian32;
    bytes := Preimage(TrimSpace(accountID), TrimSpace(userID));
  }
}
