/** Logical call ids inside one durable stage operation: the same again after a restart, and never shared by two calls. */
module OperationScope {
  import opened Common
  import opened AttemptIds
  import opened ModelCalls

  datatype Scope = Scope(operationKey: string, ordinal: nat, receiptHashes: seq<ReceiptDigest>)

  /** At least three digits, as the ordinal is printed. */
  function Padded(n: nat): string {
    if n < 10 then "00" + Decimal(n) else if n < 100 then "0" + Decimal(n) else Decimal(n)
  }

  lemma {:induction false} DecimalLength(n: nat)
    ensures n < 10 <==> |Decimal(n)| == 1
    ensures 10 <= n < 100 <==> |Decimal(n)| == 2
  {
    if n < 10 {
    } else {
      DecimalLength(n / 10);
    }
  }

  lemma PaddedInjective(m: nat, n: nat)
    requires Padded(m) == Padded(n)
    ensures m == n
  {
    DecimalLength(m);
    DecimalLength(n);
    DecimalHasOnlyDigits(m);
    DecimalHasOnlyDigits(n);
    if m >= 100 && n >= 100 {
      DecimalInjective(m, n);
    } else if m >= 100 || n >= 100 {
      LeadingDigit(if m >= 100 then m else n);
    } else {
      assert Padded(m)[3 - |Decimal(m)|..] == Decimal(m);
      assert Padded(n)[3 - |Decimal(n)|..] == Decimal(n);
      LeadingDigit(m);
      LeadingDigit(n);
      DecimalInjective(m, n);
    }
  }

  /** No number above zero is printed with a leading zero. */
  lemma {:induction false} LeadingDigit(n: nat)
    ensures Decimal(n) != "" && (n > 0 ==> Decimal(n)[0] != '0')
  {
    DecimalHasOnlyDigits(n);
    if n < 10 {
    } else {
      LeadingDigit(n / 10);
    }
  }

  /** The digest part of a call id: forty characters, none of them a dash. */
  ghost predicate DigestShaped(digest: (string, nat, string, string) -> string) {
    forall key, ordinal, provider, stage ::
      |digest(key, ordinal, provider, stage)| == 40 && '-' !in digest(key, ordinal, provider, stage)
  }

  function CallId(digest: (string, nat, string, string) -> string, prefix: string, key: string, ordinal: nat,
                  provider: string, stage: string): string
  {
    prefix + "-" + Padded(ordinal) + "-" + digest(key, ordinal, provider, stage)
  }

  /** Two calls with different ordinals have different ids, whatever providers and stages they are for. */
  lemma CallIdsDiffer(digest: (string, nat, string, string) -> string, prefix: string, key: string, ordinal: nat,
                      provider: string, stage: string, prefix': string, ordinal': nat, provider': string, stage': string)
    requires DigestShaped(digest)
    requires CallId(digest, prefix, key, ordinal, provider, stage) == CallId(digest, prefix', key, ordinal', provider', stage')
    ensures ordinal == ordinal' && prefix == prefix'
  {
    var tail, tail' := digest(key, ordinal, provider, stage), digest(key, ordinal', provider', stage');
    SuffixesAgree(prefix + "-" + Padded(ordinal), prefix' + "-" + Padded(ordinal'), tail, tail');
    DecimalHasOnlyDigits(ordinal);
    DecimalHasOnlyDigits(ordinal');
    SuffixesAgree(prefix, prefix', Padded(ordinal), Padded(ordinal'));
    PaddedInjective(ordinal, ordinal');
  }

  /** An operation key is a lowercase SHA-256 digest. */
  predicate IsOperationKey(key: string) {
    |key| == 64 && forall c | c in key :: c in "0123456789abcdef"
  }

  /** Inside a scope a receipt is remembered once, in order of first use. */
  function Noted(scope: Option<Scope>, receipt: Receipt): (noted: Option<Scope>)
    ensures noted.Some? <==> scope.Some?
    ensures noted.Some? ==>
              && ReceiptDigest(receipt) in noted.value.receiptHashes
              && scope.value.receiptHashes <= noted.value.receiptHashes
              && (NoRepeats(scope.value.receiptHashes) ==> NoRepeats(noted.value.receiptHashes))
  {
    if scope.None? || ReceiptDigest(receipt) in scope.value.receiptHashes then scope
    else Some(scope.value.(receiptHashes := scope.value.receiptHashes + [ReceiptDigest(receipt)]))
  }
}
