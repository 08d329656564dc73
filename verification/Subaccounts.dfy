/** The deposit subaccount of a principal, byte by byte (`get_principal_subaccount`,
    ic-payments/src/token_terminal.rs).  `Transfers.PrincipalSubaccount` stands for it: what is proved here is
    that no two principals share one, and that only the empty principal has the all-zero, default one. */
module Subaccounts {
  import opened Arithmetic

  const SUBACCOUNT_SIZE: nat := 32

  /** A principal has at most 29 bytes. */
  type PrincipalBytes = p: seq<byte> | |p| <= 29 witness []

  /** `s` is the subaccount of `p`: its length, its bytes, and zeros. */
  ghost predicate SubaccountOf(s: seq<byte>, p: PrincipalBytes) {
    && |s| == SUBACCOUNT_SIZE && s[0] == |p|
    && (forall i :: 0 <= i < |p| ==> s[i + 1] == p[i])
    && (forall i :: |p| < i < SUBACCOUNT_SIZE ==> s[i] == 0)
  }

  method GetPrincipalSubaccount(principal: PrincipalBytes) returns (subaccount: array<byte>)
    ensures fresh(subaccount) && SubaccountOf(subaccount[..], principal)
  {
    subaccount := new byte[SUBACCOUNT_SIZE](_ => 0);
    subaccount[0] := |principal|;
    for i := 0 to |principal|
      invariant subaccount[0] == |principal|
      invariant forall j :: 0 <= j < i ==> subaccount[j + 1] == principal[j]
      invariant forall j :: i < j < SUBACCOUNT_SIZE ==> subaccount[j] == 0
    {
      subaccount[i + 1] := principal[i];
    }
  }

  /** Different principals have different subaccounts, and the length byte of all but the empty one is not zero. */
  lemma SubaccountsDistinct(p: PrincipalBytes, q: PrincipalBytes, s: seq<byte>, u: seq<byte>)
    requires SubaccountOf(s, p) && SubaccountOf(u, q)
    ensures s == u <==> p == q
    ensures (forall i :: 0 <= i < SUBACCOUNT_SIZE ==> s[i] == 0) <==> p == []
  {
    if s == u {
      forall i | 0 <= i < |p| ensures p[i] == q[i] {
        assert s[i + 1] == u[i + 1];
      }
    }
    if p == q {
      forall i | 0 <= i < SUBACCOUNT_SIZE ensures s[i] == u[i] {
        if 0 < i <= |p| {
          assert s[i - 1 + 1] == p[i - 1] && u[i - 1 + 1] == q[i - 1];
        }
      }
    }
  }
}
