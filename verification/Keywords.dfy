/** The line keywords of the central configuration (parser.c). */
module Keywords {
  import opened Options
  import opened CStr

  datatype Keyword =
    | GatewayHost | Owner | UseTcpOnly | Network | Network6 | RouteNetwork | RouteNetwork6
    | Hidden | Silent | Port | IndirectData | Cipher | Compression | Digest | Primary
    | Ed25519 | PingTest | BeginKey | EndKey

  function Text(k: Keyword): string {
    match k
    case GatewayHost => "gatewayhost="
    case Owner => "owner="
    case UseTcpOnly => "use-tcp-only="
    case Network => "network="
    case Network6 => "network6="
    case RouteNetwork => "route_network="
    case RouteNetwork6 => "route_network6="
    case Hidden => "hidden="
    case Silent => "silent="
    case Port => "port="
    case IndirectData => "indirectdata="
    case Cipher => "cipher="
    case Compression => "compression="
    case Digest => "digest="
    case Primary => "primary="
    case Ed25519 => "ed25519publickey="
    case PingTest => "pingtest="
    case BeginKey => "-----BEGIN RSA PUBLIC KEY-----"
    case EndKey => "-----END RSA PUBLIC KEY-----"
  }

  /** strcasecmp and strncasecmp equality. */
  predicate EqFold(a: string, b: string) {
    |a| == |b| && forall i | 0 <= i < |a| :: ToLower(a[i]) == ToLower(b[i])
  }

  /** parser_check_configitem: whether the line starts with the keyword, in any case. */
  predicate Has(line: string, k: Keyword) {
    |Text(k)| <= |line| && EqFold(line[..|Text(k)|], Text(k))
  }

  /** The keywords in the order in which parser_parse_line tests for them. */
  const ORDER: seq<Keyword> := [
    GatewayHost, Owner, UseTcpOnly, Network, Network6, RouteNetwork, RouteNetwork6,
    Hidden, Silent, Port, IndirectData, Cipher, Compression, Digest, Primary,
    Ed25519, PingTest, BeginKey, EndKey]

  /** The chain of tests: the first keyword of the list that the line has. */
  function FirstOf(ks: seq<Keyword>, line: string): (o: Option<Keyword>)
    ensures o.Some? ==> Has(line, o.value)
    ensures o.None? ==> forall k | k in ks :: !Has(line, k)
  {
    if ks == [] then None
    else if Has(line, ks[0]) then Some(ks[0])
    else FirstOf(ks[1..], line)
  }

  function Dispatch(line: string): Option<Keyword> { FirstOf(ORDER, line) }

  predicate IsName(k: Keyword) { !k.BeginKey? && !k.EndKey? }

  /** A name keyword is a word closed by its only equals sign. */
  lemma NameShape(k: Keyword)
    requires IsName(k)
    ensures var t := Text(k); t != [] && t[|t| - 1] == '=' && t[0] != '-' && '=' !in t[..|t| - 1]
  {
  }

  /** Name keywords of one length differ in their first character. */
  lemma FirstCharacters(j: Keyword, k: Keyword)
    requires IsName(j) && IsName(k) && j != k && |Text(j)| == |Text(k)|
    ensures 'a' <= Text(j)[0] <= 'z' && 'a' <= Text(k)[0] <= 'z' && Text(j)[0] != Text(k)[0]
  {
  }

  predicate DifferFold(s: string, t: string) {
    exists i | 0 <= i < |s| && i < |t| :: ToLower(s[i]) != ToLower(t[i])
  }

  lemma WordsDiffer(s: string, t: string)
    requires s != [] && |s| < |t| && s[|s| - 1] == '=' && '=' !in t[..|t| - 1]
    ensures DifferFold(s, t)
  {
    var i := |s| - 1;
    assert t[i] in t[..|t| - 1];
    assert ToLower(s[i]) == '=' && ToLower(t[i]) != '=';
  }

  lemma MarkersDiffer()
    ensures DifferFold(Text(BeginKey), Text(EndKey))
    ensures Text(BeginKey)[0] == '-' && Text(EndKey)[0] == '-'
  {
    assert ToLower(Text(BeginKey)[5]) == 'b' && ToLower(Text(EndKey)[5]) == 'e';
  }

  lemma HeadsDiffer(s: string, t: string)
    requires s != [] && t != [] && ToLower(s[0]) != ToLower(t[0])
    ensures DifferFold(s, t)
  {
  }

  lemma NamesDiffer(j: Keyword, k: Keyword)
    requires IsName(j) && IsName(k) && j != k && |Text(j)| <= |Text(k)|
    ensures DifferFold(Text(j), Text(k))
  {
    NameShape(j);
    NameShape(k);
    if |Text(j)| == |Text(k)| {
      FirstCharacters(j, k);
      HeadsDiffer(Text(j), Text(k));
    } else {
      WordsDiffer(Text(j), Text(k));
    }
  }

  lemma NameAndMarkerDiffer(j: Keyword, k: Keyword)
    requires IsName(j) && !IsName(k)
    ensures DifferFold(Text(j), Text(k))
  {
    NameShape(j);
    MarkersDiffer();
    HeadsDiffer(Text(j), Text(k));
  }

  lemma DifferSymmetric(s: string, t: string)
    requires DifferFold(s, t)
    ensures DifferFold(t, s)
  {
  }

  /** Two different keywords differ somewhere within the shorter one, whatever the case. */
  lemma Different(j: Keyword, k: Keyword)
    requires j != k
    ensures DifferFold(Text(j), Text(k))
  {
    if IsName(j) && IsName(k) {
      if |Text(j)| <= |Text(k)| {
        NamesDiffer(j, k);
      } else {
        NamesDiffer(k, j);
        DifferSymmetric(Text(k), Text(j));
      }
    } else if IsName(j) {
      NameAndMarkerDiffer(j, k);
    } else if IsName(k) {
      NameAndMarkerDiffer(k, j);
      DifferSymmetric(Text(k), Text(j));
    } else {
      MarkersDiffer();
      DifferSymmetric(Text(BeginKey), Text(EndKey));
    }
  }

  lemma BothPrefixes(line: string, s: string, t: string)
    requires |s| <= |line| && EqFold(line[..|s|], s) && |t| <= |line| && EqFold(line[..|t|], t)
    ensures !DifferFold(s, t)
  {
    forall i | 0 <= i < |s| && i < |t| ensures ToLower(s[i]) == ToLower(t[i]) {
      assert line[..|s|][i] == line[i] == line[..|t|][i];
    }
  }

  /** No line has two keywords, so the order of the tests does not matter. */
  lemma OneKeyword(line: string, j: Keyword, k: Keyword)
    requires Has(line, j) && Has(line, k)
    ensures j == k
  {
    if j != k {
      Different(j, k);
      BothPrefixes(line, Text(j), Text(k));
    }
  }

  lemma AllListed(k: Keyword)
    ensures k in ORDER
  {
    assert ORDER[0] == GatewayHost && ORDER[1] == Owner && ORDER[2] == UseTcpOnly && ORDER[3] == Network;
    assert ORDER[4] == Network6 && ORDER[5] == RouteNetwork && ORDER[6] == RouteNetwork6 && ORDER[7] == Hidden;
    assert ORDER[8] == Silent && ORDER[9] == Port && ORDER[10] == IndirectData && ORDER[11] == Cipher;
    assert ORDER[12] == Compression && ORDER[13] == Digest && ORDER[14] == Primary && ORDER[15] == Ed25519;
    assert ORDER[16] == PingTest && ORDER[17] == BeginKey && ORDER[18] == EndKey;
  }

  /** The chain finds the keyword a line has, wherever it stands in the chain. */
  lemma DispatchFinds(line: string, k: Keyword)
    requires Has(line, k)
    ensures Dispatch(line) == Some(k)
  {
    AllListed(k);
    OneKeyword(line, FirstOf(ORDER, line).value, k);
  }

  /** Any other order of the tests gives the same result. */
  lemma OrderIrrelevant(ks: seq<Keyword>, line: string)
    requires forall k | k in ORDER :: k in ks
    ensures FirstOf(ks, line) == Dispatch(line)
  {
    var o := FirstOf(ks, line);
    if o.Some? {
      DispatchFinds(line, o.value);
    } else if FirstOf(ORDER, line).Some? {
      AllListed(FirstOf(ORDER, line).value);
    }
  }
}
