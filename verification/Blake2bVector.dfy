/** The worked example of Appendix A of RFC 7693: the digest of "abc", half a
    round at a time. */
module Blake2bVector {
  import opened Words
  import opened Blake2b

  // ---- Rounds on the four columns ----

  datatype Grid = Grid(p: Quad, q: Quad, r: Quad, s: Quad)

  datatype Octet = Octet(w0: Word, w1: Word, w2: Word, w3: Word, w4: Word, w5: Word, w6: Word, w7: Word)

  function Mixed(g: Grid, w: Octet): Grid {
    Grid(G(g.p, w.w0, w.w1), G(g.q, w.w2, w.w3), G(g.r, w.w4, w.w5), G(g.s, w.w6, w.w7))
  }

  // The diagonals as columns.
  function Turned(g: Grid): Grid {
    Grid(Quad(g.p.a, g.q.b, g.r.c, g.s.d), Quad(g.q.a, g.r.b, g.s.c, g.p.d),
         Quad(g.r.a, g.s.b, g.p.c, g.q.d), Quad(g.s.a, g.p.b, g.q.c, g.r.d))
  }

  function Gathered(v: seq<Word>): Grid
    requires |v| == 16
  {
    Grid(Quad(v[0], v[4], v[8], v[12]), Quad(v[1], v[5], v[9], v[13]),
         Quad(v[2], v[6], v[10], v[14]), Quad(v[3], v[7], v[11], v[15]))
  }

  function Picked(m: seq<Word>, s: seq<nat>, from: nat): Octet
    requires |m| == 16 && IsSchedule(s) && from <= 8
  {
    Octet(m[s[from]], m[s[from + 1]], m[s[from + 2]], m[s[from + 3]],
          m[s[from + 4]], m[s[from + 5]], m[s[from + 6]], m[s[from + 7]])
  }

  // One column of the vector, mixed; then one diagonal.
  lemma ColumnP(v: seq<Word>, x: Word, y: Word)
    requires |v| == 16
    ensures var g := Gathered(v); Gathered(Mix(v, 0, 4, 8, 12, x, y)) == g.(p := G(g.p, x, y))
  {
    hide G, Mix;
    MixIsG(v, 0, 4, 8, 12, x, y);
  }

  lemma ColumnQ(v: seq<Word>, x: Word, y: Word)
    requires |v| == 16
    ensures var g := Gathered(v); Gathered(Mix(v, 1, 5, 9, 13, x, y)) == g.(q := G(g.q, x, y))
  {
    hide G, Mix;
    MixIsG(v, 1, 5, 9, 13, x, y);
  }

  lemma ColumnR(v: seq<Word>, x: Word, y: Word)
    requires |v| == 16
    ensures var g := Gathered(v); Gathered(Mix(v, 2, 6, 10, 14, x, y)) == g.(r := G(g.r, x, y))
  {
    hide G, Mix;
    MixIsG(v, 2, 6, 10, 14, x, y);
  }

  lemma ColumnS(v: seq<Word>, x: Word, y: Word)
    requires |v| == 16
    ensures var g := Gathered(v); Gathered(Mix(v, 3, 7, 11, 15, x, y)) == g.(s := G(g.s, x, y))
  {
    hide G, Mix;
    MixIsG(v, 3, 7, 11, 15, x, y);
  }

  lemma DiagonalP(v: seq<Word>, x: Word, y: Word)
    requires |v| == 16
    ensures var t := Turned(Gathered(v)); Turned(Gathered(Mix(v, 0, 5, 10, 15, x, y))) == t.(p := G(t.p, x, y))
  {
    hide G, Mix;
    MixIsG(v, 0, 5, 10, 15, x, y);
  }

  lemma DiagonalQ(v: seq<Word>, x: Word, y: Word)
    requires |v| == 16
    ensures var t := Turned(Gathered(v)); Turned(Gathered(Mix(v, 1, 6, 11, 12, x, y))) == t.(q := G(t.q, x, y))
  {
    hide G, Mix;
    MixIsG(v, 1, 6, 11, 12, x, y);
  }

  lemma DiagonalR(v: seq<Word>, x: Word, y: Word)
    requires |v| == 16
    ensures var t := Turned(Gathered(v)); Turned(Gathered(Mix(v, 2, 7, 8, 13, x, y))) == t.(r := G(t.r, x, y))
  {
    hide G, Mix;
    MixIsG(v, 2, 7, 8, 13, x, y);
  }

  lemma DiagonalS(v: seq<Word>, x: Word, y: Word)
    requires |v| == 16
    ensures var t := Turned(Gathered(v)); Turned(Gathered(Mix(v, 3, 4, 9, 14, x, y))) == t.(s := G(t.s, x, y))
  {
    hide G, Mix;
    MixIsG(v, 3, 4, 9, 14, x, y);
  }

  lemma ColumnsAre(v: seq<Word>, m: seq<Word>, s: seq<nat>)
    requires |v| == |m| == 16 && IsSchedule(s)
    ensures Gathered(Columns(v, m, s)) == Mixed(Gathered(v), Picked(m, s, 0))
  {
    hide G, Mix, Gathered, Turned;
    ColumnP(v, m[s[0]], m[s[1]]);
    var v1 := Mix(v, 0, 4, 8, 12, m[s[0]], m[s[1]]);
    ColumnQ(v1, m[s[2]], m[s[3]]);
    var v2 := Mix(v1, 1, 5, 9, 13, m[s[2]], m[s[3]]);
    ColumnR(v2, m[s[4]], m[s[5]]);
    var v3 := Mix(v2, 2, 6, 10, 14, m[s[4]], m[s[5]]);
    ColumnS(v3, m[s[6]], m[s[7]]);
  }

  lemma DiagonalsAre(v: seq<Word>, m: seq<Word>, s: seq<nat>)
    requires |v| == |m| == 16 && IsSchedule(s)
    ensures Turned(Gathered(Diagonals(v, m, s))) == Mixed(Turned(Gathered(v)), Picked(m, s, 8))
  {
    hide G, Mix, Gathered, Turned;
    DiagonalP(v, m[s[8]], m[s[9]]);
    var v1 := Mix(v, 0, 5, 10, 15, m[s[8]], m[s[9]]);
    DiagonalQ(v1, m[s[10]], m[s[11]]);
    var v2 := Mix(v1, 1, 6, 11, 12, m[s[10]], m[s[11]]);
    DiagonalR(v2, m[s[12]], m[s[13]]);
    var v3 := Mix(v2, 2, 7, 8, 13, m[s[12]], m[s[13]]);
    DiagonalS(v3, m[s[14]], m[s[15]]);
  }
  lemma RoundFrom(v: seq<Word>, m: seq<Word>, s: seq<nat>, e: Grid, h: Grid)
    requires |v| == |m| == 16 && IsSchedule(s)
    requires Mixed(Gathered(v), Picked(m, s, 0)) == e && Mixed(Turned(e), Picked(m, s, 8)) == Turned(h)
    ensures Gathered(Round(v, m, s)) == h
  {
    hide Mixed, Gathered, Columns, Diagonals, Turned, Picked;
    ColumnsAre(v, m, s);
    DiagonalsAre(Columns(v, m, s), m, s);
    TurnedOnce(Gathered(Diagonals(Columns(v, m, s), m, s)), h);
  }

  lemma TurnedOnce(g: Grid, h: Grid)
    requires Turned(g) == Turned(h)
    ensures g == h
  {
  }

  // ---- The worked example ----

  // The message is one block, with all but its first word zero.
  const ABC: Word := 0x636261

  predicate IsAbc(m: seq<Word>) {
    |m| == 16 && m[0] == ABC && forall i :: 1 <= i < 16 ==> m[i] == 0
  }

  // What each row of the schedule takes from the message.
  lemma Row0(m: seq<Word>)
    requires IsAbc(m)
    ensures |SIGMA| == 10 && IsSchedule(SIGMA[0])
    ensures Picked(m, SIGMA[0], 0) == Octet(ABC, 0, 0, 0, 0, 0, 0, 0) && Picked(m, SIGMA[0], 8) == Octet(0, 0, 0, 0, 0, 0, 0, 0)
  {
  }

  lemma Row1(m: seq<Word>)
    requires IsAbc(m)
    ensures |SIGMA| == 10 && IsSchedule(SIGMA[1])
    ensures Picked(m, SIGMA[1], 0) == Octet(0, 0, 0, 0, 0, 0, 0, 0) && Picked(m, SIGMA[1], 8) == Octet(0, 0, ABC, 0, 0, 0, 0, 0)
  {
  }

  lemma Row2(m: seq<Word>)
    requires IsAbc(m)
    ensures |SIGMA| == 10 && IsSchedule(SIGMA[2])
    ensures Picked(m, SIGMA[2], 0) == Octet(0, 0, 0, ABC, 0, 0, 0, 0) && Picked(m, SIGMA[2], 8) == Octet(0, 0, 0, 0, 0, 0, 0, 0)
  {
  }

  lemma Row3(m: seq<Word>)
    requires IsAbc(m)
    ensures |SIGMA| == 10 && IsSchedule(SIGMA[3])
    ensures Picked(m, SIGMA[3], 0) == Octet(0, 0, 0, 0, 0, 0, 0, 0) && Picked(m, SIGMA[3], 8) == Octet(0, 0, 0, 0, 0, ABC, 0, 0)
  {
  }

  lemma Row4(m: seq<Word>)
    requires IsAbc(m)
    ensures |SIGMA| == 10 && IsSchedule(SIGMA[4])
    ensures Picked(m, SIGMA[4], 0) == Octet(0, ABC, 0, 0, 0, 0, 0, 0) && Picked(m, SIGMA[4], 8) == Octet(0, 0, 0, 0, 0, 0, 0, 0)
  {
  }

  lemma Row5(m: seq<Word>)
    requires IsAbc(m)
    ensures |SIGMA| == 10 && IsSchedule(SIGMA[5])
    ensures Picked(m, SIGMA[5], 0) == Octet(0, 0, 0, 0, ABC, 0, 0, 0) && Picked(m, SIGMA[5], 8) == Octet(0, 0, 0, 0, 0, 0, 0, 0)
  {
  }

  lemma Row6(m: seq<Word>)
    requires IsAbc(m)
    ensures |SIGMA| == 10 && IsSchedule(SIGMA[6])
    ensures Picked(m, SIGMA[6], 0) == Octet(0, 0, 0, 0, 0, 0, 0, 0) && Picked(m, SIGMA[6], 8) == Octet(ABC, 0, 0, 0, 0, 0, 0, 0)
  {
  }

  lemma Row7(m: seq<Word>)
    requires IsAbc(m)
    ensures |SIGMA| == 10 && IsSchedule(SIGMA[7])
    ensures Picked(m, SIGMA[7], 0) == Octet(0, 0, 0, 0, 0, 0, 0, 0) && Picked(m, SIGMA[7], 8) == Octet(0, ABC, 0, 0, 0, 0, 0, 0)
  {
  }

  lemma Row8(m: seq<Word>)
    requires IsAbc(m)
    ensures |SIGMA| == 10 && IsSchedule(SIGMA[8])
    ensures Picked(m, SIGMA[8], 0) == Octet(0, 0, 0, 0, 0, 0, ABC, 0) && Picked(m, SIGMA[8], 8) == Octet(0, 0, 0, 0, 0, 0, 0, 0)
  {
  }

  lemma Row9(m: seq<Word>)
    requires IsAbc(m)
    ensures |SIGMA| == 10 && IsSchedule(SIGMA[9])
    ensures Picked(m, SIGMA[9], 0) == Octet(0, 0, 0, 0, 0, 0, 0, 0) && Picked(m, SIGMA[9], 8) == Octet(0, 0, 0, 0, 0, 0, 0, ABC)
  {
  }

  // The vector before each round and between its two halves.
  const V0 := Grid(Quad(0x6A09E667F2BDC948, 0x510E527FADE682D1, 0x6A09E667F3BCC908, 0x510E527FADE682D2),
             Quad(0xBB67AE8584CAA73B, 0x9B05688C2B3E6C1F, 0xBB67AE8584CAA73B, 0x9B05688C2B3E6C1F),
             Quad(0x3C6EF372FE94F82B, 0x1F83D9ABFB41BD6B, 0x3C6EF372FE94F82B, 0xE07C265404BE4294),
             Quad(0xA54FF53A5F1D36F1, 0x5BE0CD19137E2179, 0xA54FF53A5F1D36F1, 0x5BE0CD19137E2179))
  const W0 := Grid(Quad(0xF0C9AA0F86491DEA, 0xB7DEFC3D0277E11F, 0xEE5E0F39647A9FFF, 0x7772FC2886A76C5F),
             Quad(0x63B7DEDF4A4E5AD3, 0xED49C30CD311D50E, 0x7BEE264BF3CDADFE, 0x254EF880A19A8726),
             Quad(0xBE50EB454E0A93D7, 0xA056671704B00D71, 0xB2752DADD66BD8F9, 0x789D43381C47F584),
             Quad(0x949804B0483EAD14, 0x75E6432FC4661B06, 0xA99463CB37905929, 0xA25EF57D7DA312EE))
  const V1 := Grid(Quad(0x86B7C1568029BB79, 0x44EE6039BD86A9F7, 0xBEC3AE837EAC4887, 0xE02D0975B8D37A83),
             Quad(0xC12CBCC809FF59F3, 0xA447C850AA694A7E, 0x6267FC79DF9D6AD1, 0x1C7B754F08B7D193),
             Quad(0xC6A5214CC0EACA8E, 0xDE080F1BB1C0F84B, 0xFA87B01273FA6DBE, 0x8F885A76B6E578FE),
             Quad(0x0C87CD524C14CC5D, 0x595CB8A9A1ACA66C, 0x521A715C63E08D8A, 0x2318A24E2140FC64))
  const W1 := Grid(Quad(0x7D7EBC91065EB487, 0xA2A2BB290A6FA0AC, 0xE089C6944D999F41, 0x9C62F81DA3622DD5),
             Quad(0x2985DBD3B522B163, 0x48DAA2180CCA574F, 0x607C07B706DF2755, 0x4134955AAE31CC2D),
             Quad(0x83DCC7C95110E507, 0x25804D5986D6E07F, 0x4DEFB1CC1D0E5211, 0x8F1947927DEE7A35),
             Quad(0xD5F7D943AE7A12D4, 0x47DC958F84E67B9C, 0x53FD198002CB9DC5, 0x3561197657EEE886))
  const V2 := Grid(Quad(0x53281E83806010F2, 0xBAABDBB2F386D9AE, 0x224E6A3369224F96, 0x92A3AAAA6D952B7F),
             Quad(0x3594B403F81B4393, 0xCA5425AEC65A10A8, 0x500E125E58A92923, 0xC5FDF71090FAE853),
             Quad(0x8CD63C7462DE0DFF, 0xC6A22E2FF0F7AA48, 0xE9E4AD0D0E1A0D48, 0x2A8A40F15A462DD0),
             Quad(0x85F693F3DA53F974, 0xC6A56A51CB89C595, 0x85DF9DC143C59A74, 0x572D17EFFDD37358))
  const W2 := Grid(Quad(0x224D9730DDDE8C9B, 0x1161E9566CEC8636, 0x1CC968515F81E2E0, 0xDC073C3E56EF42AE),
             Quad(0xE430476788C41EF0, 0x956FE864884AC584, 0xAEF099868DCE0A96, 0x3052CABFFB0FB2D1),
             Quad(0x4F163FDA2E4243BF, 0x4DFEB83FD06A086B, 0x5D62892A32598F4D, 0x69EA4685AA4D57B0),
             Quad(0x41DD8960F0DE029D, 0x78C811FDDF5C5824, 0xC92583E5A4AE6F86, 0xEB3719D34531EB68))
  const V3 := Grid(Quad(0x60ED96AA7AD41725, 0xDA0A61BCDE4267EA, 0xA1677E19F37FD5DA, 0xC804EBAB11C99FA9),
             Quad(0xE46A743C71800B9D, 0xB1DD230754D7BDEE, 0x22BDCE6976B08C51, 0x8E0CEC959C715793),
             Quad(0x1A04B543A01F156B, 0x25A1422779E06D14, 0xF1DE8696BEC11BF1, 0x7C45557FAE0D4D89),
             Quad(0xA2F8716E775C4877, 0xE6823AE4C3FF58A5, 0xA0EBD586A4A1D2C8, 0x716343F52FDD265E))
  const W3 := Grid(Quad(0x6B864497A655FB47, 0xC4B99C558F3684E9, 0xD2D2821A8AA43E4C, 0xE88B2359A43154A6),
             Quad(0xC1FD6110FFA75065, 0x065B83216E96ED93, 0xA898085D8E04F013, 0x2BB39BDBFF08E7EC),
             Quad(0x817908F78A142CFA, 0xF2D93929736E5B04, 0x38BF8D18C9A387F9, 0x8EEE368BC701C9F4),
             Quad(0xCE1577A72BC1CE7B, 0x2795F81CFB8F7633, 0xD750375D8DA19646, 0x21DDDA93F0E5D3D8))
  const V4 := Grid(Quad(0xBB2A77D3A8382351, 0x8A03C4CB7E97590A, 0xA9C9A8F17B1FC614, 0x086092CFB858437E),
             Quad(0x45EB47971F23B103, 0x24192E49EBF54EA0, 0x55908187977514A0, 0x5C4BE2156DBEECF9),
             Quad(0x98BE297F6E45C684, 0x4F82C9401CB32D7A, 0x5B44273E66B19D27, 0x2EFEDE99ED4EFF16),
             Quad(0xA36077DEE3370B89, 0x8CCD013726420DC4, 0xB6D5C9FCA2579327, 0x3E7B5F234CD1F804))
  const W4 := Grid(Quad(0x3E5BAB618A5FBC72, 0x475DCC427F3FCD87, 0x5A8388E35CB33B75, 0x1222A0CC9444C711),
             Quad(0x9BE6AA793AD3A7C9, 0xBB2D4D7552BA222D, 0xEC74922286E7B930, 0x303DFD40B9230C9C),
             Quad(0xC5252A4D03F65B2F, 0xCDCFC26E59D1D349, 0x3A03D6BA54158E95, 0x7709A29326A5C548),
             Quad(0x1FE21186BD238BE3, 0x8BC33BC025AE3C8E, 0xAA550590A17D6CD1, 0xADD65A4AF0CFB375))
  const V5 := Grid(Quad(0xC79C15B3D423B099, 0x0F6D9EEED157DA2A, 0xB2240B59E6D567D3, 0xB97D2D439E4DF63D),
             Quad(0x2DA2224E8DA97556, 0x6FE66467AF88C0A9, 0x2643C2370E49EBFD, 0xC718E755294C9111),
             Quad(0x77D2B26DF1C45C55, 0x4EB0B76284C7AAFB, 0x79E02EEF20CDB1AE, 0x1F0893F2772BB373),
             Quad(0x8934EB09A3456052, 0x299C8E725D954697, 0x64B3EED7BB602F39, 0x1205EA4A7859807D))
  const W5 := Grid(Quad(0xF4E55384DC924147, 0xB7B58D9367A4043D, 0xC601582B84C4B49A, 0xD8A6CFD32F7AB2E6),
             Quad(0xF015D00B613578C6, 0x02CA058BF3799684, 0x53E84B90DDBF8985, 0x1925E46B74E53BA5),
             Quad(0x648495058CAE3D2F, 0xB9668B8EBF3FA717, 0x42B26EF24A2100F5, 0xC70D65404FC75525),
             Quad(0x54567270AC75C4EA, 0x292F756A3507A223, 0x35134241B118CF10, 0x57DC2CD554E40CA1))
  const V6 := Grid(Quad(0xE58F97D6385BAEE4, 0x7127CD48C76A7708, 0x41CCA9073C8C4D0D, 0x8733794F07AC1500),
             Quad(0x7640AA9764DA137A, 0x9E472AF0BE3DB3F6, 0x5C7912BC10DF3B4B, 0xC67A6BE42335AA6F),
             Quad(0xDEB4C7C23EFE287E, 0x0F244C62DDF71788, 0xA2C3ABBD37510EE2, 0xACB22B28681E4C82),
             Quad(0x70F6F41C8783C9F6, 0x219828AA83880842, 0xCB5668CC2A9F7859, 0xDB2161604CBC9828))
  const W6 := Grid(Quad(0xD0D5BB6A10DAE2B5, 0x860AA9F111072CEA, 0x391B02B399972ABC, 0xFEE428BF8B86C15E),
             Quad(0xF5D2174AFF6CF2CD, 0x90EE681D04CE182A, 0xA93D75CC5E322748, 0x4CA1F5F07A552D91),
             Quad(0x39337B3DA7E963AB, 0x7E1EC202F5042FA8, 0x74550619F0763471, 0x5CA64DD877B9E682),
             Quad(0x588D5EF9A0A6492F, 0x04D72048395B53FF, 0x4795D2168937DF08, 0x34881F3A14E9E908))
  const V7 := Grid(Quad(0x6E2D286EEADEDC81, 0x819415B56220C459, 0x04D769B3FCB048DB, 0x92AAC307CF2C0AFC),
             Quad(0xBCF02C0787E86358, 0xB63C479A6A769F02, 0xB78A9A33E9BFF4DD, 0x30AACCC4F06DAFAA),
             Quad(0x57D56A56DD015EDF, 0x258E55E0EC1F362A, 0x5777272AE1E930C0, 0x483893CC094F8863),
             Quad(0x55D899D40A5D0D0A, 0x3A3B4EC60E19DFDC, 0x5A387849E578DBF6, 0xE03C6CC89C26BF92))
  const W7 := Grid(Quad(0x2C42E52D8C060FF2, 0x8FFAC8C5EC5CB0E6, 0x7B7CC36BC928376B, 0xF2D1AF914F0BF16D),
             Quad(0xA357B3B1736EC0A1, 0x1355530D9510B6DA, 0x3981E9894B87E52A, 0x7FC4A1651E4130E8),
             Quad(0xD916516A31320B04, 0x56AF9E7816ABF9BE, 0x70E55E0E63448924, 0x58FF19794C000469),
             Quad(0x41D37D7ECBFC6541, 0x1C460B4A606CC880, 0xBF9C914183B31C1B, 0xE113C5832E0ABBD3))
  const V8 := Grid(Quad(0xFFC83ECE76024D01, 0x81937DA314A50838, 0xA3C2D35E4F685C10, 0x3841DEF6F4C9848A),
             Quad(0x1BE7BFFB8C5CC5F9, 0xE1179523A2541963, 0xA53D3F73AA619624, 0x98662C85FBA726D4),
             Quad(0xA35A18CBAC4C65B7, 0x3A1FAD7106232B8F, 0x30BBCC0285A22F65, 0x7762439BD5A851BD),
             Quad(0xB7C2C7E6D88C285F, 0x1C7EDE92AB8B9C46, 0xBCEFBB6A81539E5D, 0xB0B9F0D443D1A889))
  const W8 := Grid(Quad(0xA9126C152D800655, 0x4165A65AC9E3C45B, 0x87047C8EC6295331, 0x64D2D77CBDA6949A),
             Quad(0xAC1632BA715EBF08, 0xDFE2D8CD3101F453, 0x40E7B1FDDA2D2585, 0xC6927901CB3215C7),
             Quad(0x7C1849DF4E91206F, 0x41AA56FE49862D7F, 0x3E4BA8DDB8E29996, 0xA5C81BDF8924E48A),
             Quad(0x94AAF312690F9253, 0x13E3A2C50CFAD099, 0x49989DFA62E90301, 0xC4FE53007C9D0DF7))
  const V9 := Grid(Quad(0x753A70A1E8FAEADD, 0x58540EE1B1AEBC47, 0x316CC9EBEEFAD8FC, 0x88ED6C4F3BD7A537),
             Quad(0x6B0D43CA2C25D629, 0x63C5B9B80D294CB9, 0x4A466BCD021526A4, 0x19AE688DDF67F026),
             Quad(0xF8343BA8B94F8C0B, 0x490870ECAD27DEBD, 0x5DA7F7638CEC5669, 0x4D8707AAB40F7E6D),
             Quad(0xBC7D062B0DB5CF35, 0xB2A90DDF667287FE, 0xD9C8826727D306FC, 0xFD3F572687FEA4F1))
  const W9 := Grid(Quad(0xC0DF0F0E596EC5A9, 0xB4014455FF7C2CA0, 0xA9502DA0417B08D5, 0xD66561A10D1D1C0D),
             Quad(0x87CA07D5E3D64CB6, 0x65BF544E084BB313, 0x0A28A074AEA2F05D, 0xD9B961E2D51134AA),
             Quad(0xD11BC20E8EF44EFC, 0x3478342AB05ECF87, 0x15E30F6C705383F7, 0xE5C30363D6AB824F),
             Quad(0x0DF3EA89AAA44E12, 0x88274463CA98E874, 0xDADE744ED33782E5, 0x0D3EFE25194B38BD))
  const V10 := Grid(Quad(0xE630C747CCD59C4F, 0x2D04185EAC2A8CBA, 0x6DD4FBC1DE60165D, 0x2C6B25593D717852),
              Quad(0xBC713D41127571CA, 0x5F311B88904056EC, 0xB3B0B51DE3C86270, 0x37E8CA471BEAA5F8),
              Quad(0x46DB183025025078, 0x40BD313009201AAB, 0x900AEE2F233B08E5, 0x2CFC1BAC10EF4457),
              Quad(0x6727E81260610140, 0x0099D4F82A2A1EAB, 0xA07199D87AD058D8, 0x01369EC18746E775))
  const W10 := Grid(Quad(0xFDD2C6435D5A301B, 0x2CA29C4D619BAFA1, 0x7CCCA8BA533B7361, 0xCAE4B9C0357B6205),
              Quad(0x6E446AFBC3EFAD36, 0xFCD5D76A6DE20047, 0xACC8F98717C8E4A3, 0x3FB8D71B07B5EFA5),
              Quad(0x46D963EE934EFEEA, 0x8B7F1E6CFC2A0039, 0x7AFE95B81B3993DB, 0xAC2678144C9A382A),
              Quad(0x5523C5B930D1AEB6, 0xADBDC7977150B805, 0x3BBCEB651EEED2C9, 0x8D7D58EE3D275626))
  const V11 := Grid(Quad(0xE801F73B9768C760, 0xF4F1BE86690B3C34, 0x35BA354A9C7DF448, 0x61B5C0A41D491399),
              Quad(0x35C6D22320BE511D, 0x3CC88735D1475E4B, 0x4929CBE45679D73E, 0xB5C333457E12844A),
              Quad(0x306F27584F65495E, 0x5DAC67921FF76949, 0x733D1A17248F39DB, 0xBD696BE010D0D889),
              Quad(0xB51776ADF569A77B, 0x1CDB9D31AD70CC4E, 0x92D57B736F5F170A, 0x02231E1A917FE0BD))
  const W11 := Grid(Quad(0xAC495068076FE1C4, 0x5198D8D539A3FBCE, 0xE799F6CC9A2A23D7, 0x94A2B1744065BA29),
              Quad(0xF3AE6A427A75E234, 0xB8EACC53AEAD98B1, 0x5D6A76C05F26FE94, 0x88297FB94160BD39),
              Quad(0x83933B99D54089EE, 0x55B2599798B3A4A1, 0x5FAE8064A9BA0517, 0x6CE4FC1F51B7E632),
              Quad(0x31DB95BA436E4DB7, 0xB20B2179D2DCD8C6, 0x06ED116649FDB58D, 0x4072027E06CE90BE))
  const V12 := Grid(Quad(0x12EF8A641EC4F6D6, 0xF42C16519AD5AFA7, 0x75AB709BD3DCBF24, 0x885BEF040EF6AA0B),
              Quad(0xBCED5DE977C9FAF5, 0xAA5AC1888E10467E, 0xEE7CE1F345947AA4, 0xA4939A417BFB78A3),
              Quad(0x733CA476C5148639, 0x217D930AA51787F3, 0xF8960D6C2FAF5F5E, 0x646CBB7AF6DCE980),
              Quad(0x97DF596B0610F6FC, 0x906A6FF19E573942, 0xE332538A36B6D246, 0xE813A23C60AF3B82))

  lemma Columns0()
    ensures Mixed(V0, Octet(ABC, 0, 0, 0, 0, 0, 0, 0)) == W0
  {
  }

  lemma Diagonals0()
    ensures Mixed(Turned(W0), Octet(0, 0, 0, 0, 0, 0, 0, 0)) == Turned(V1)
  {
  }

  lemma Columns1()
    ensures Mixed(V1, Octet(0, 0, 0, 0, 0, 0, 0, 0)) == W1
  {
  }

  lemma Diagonals1()
    ensures Mixed(Turned(W1), Octet(0, 0, ABC, 0, 0, 0, 0, 0)) == Turned(V2)
  {
  }

  lemma Columns2()
    ensures Mixed(V2, Octet(0, 0, 0, ABC, 0, 0, 0, 0)) == W2
  {
  }

  lemma Diagonals2()
    ensures Mixed(Turned(W2), Octet(0, 0, 0, 0, 0, 0, 0, 0)) == Turned(V3)
  {
  }

  lemma Columns3()
    ensures Mixed(V3, Octet(0, 0, 0, 0, 0, 0, 0, 0)) == W3
  {
  }

  lemma Diagonals3()
    ensures Mixed(Turned(W3), Octet(0, 0, 0, 0, 0, ABC, 0, 0)) == Turned(V4)
  {
  }

  lemma Columns4()
    ensures Mixed(V4, Octet(0, ABC, 0, 0, 0, 0, 0, 0)) == W4
  {
  }

  lemma Diagonals4()
    ensures Mixed(Turned(W4), Octet(0, 0, 0, 0, 0, 0, 0, 0)) == Turned(V5)
  {
  }

  lemma Columns5()
    ensures Mixed(V5, Octet(0, 0, 0, 0, ABC, 0, 0, 0)) == W5
  {
  }

  lemma Diagonals5()
    ensures Mixed(Turned(W5), Octet(0, 0, 0, 0, 0, 0, 0, 0)) == Turned(V6)
  {
  }

  lemma Columns6()
    ensures Mixed(V6, Octet(0, 0, 0, 0, 0, 0, 0, 0)) == W6
  {
  }

  lemma Diagonals6()
    ensures Mixed(Turned(W6), Octet(ABC, 0, 0, 0, 0, 0, 0, 0)) == Turned(V7)
  {
  }

  lemma Columns7()
    ensures Mixed(V7, Octet(0, 0, 0, 0, 0, 0, 0, 0)) == W7
  {
  }

  lemma Diagonals7()
    ensures Mixed(Turned(W7), Octet(0, ABC, 0, 0, 0, 0, 0, 0)) == Turned(V8)
  {
  }

  lemma Columns8()
    ensures Mixed(V8, Octet(0, 0, 0, 0, 0, 0, ABC, 0)) == W8
  {
  }

  lemma Diagonals8()
    ensures Mixed(Turned(W8), Octet(0, 0, 0, 0, 0, 0, 0, 0)) == Turned(V9)
  {
  }

  lemma Columns9()
    ensures Mixed(V9, Octet(0, 0, 0, 0, 0, 0, 0, 0)) == W9
  {
  }

  lemma Diagonals9()
    ensures Mixed(Turned(W9), Octet(0, 0, 0, 0, 0, 0, 0, ABC)) == Turned(V10)
  {
  }

  lemma Columns10()
    ensures Mixed(V10, Octet(ABC, 0, 0, 0, 0, 0, 0, 0)) == W10
  {
  }

  lemma Diagonals10()
    ensures Mixed(Turned(W10), Octet(0, 0, 0, 0, 0, 0, 0, 0)) == Turned(V11)
  {
  }

  lemma Columns11()
    ensures Mixed(V11, Octet(0, 0, 0, 0, 0, 0, 0, 0)) == W11
  {
  }

  lemma Diagonals11()
    ensures Mixed(Turned(W11), Octet(0, 0, ABC, 0, 0, 0, 0, 0)) == Turned(V12)
  {
  }

  lemma Rounds0To4(v: seq<Word>, m: seq<Word>)
    requires |v| == |m| == 16 && IsAbc(m) && Gathered(Rounds(v, m, 0)) == V0
    ensures Gathered(Rounds(v, m, 4)) == V4
  {
    hide *;
    Row0(m);
    Columns0();
    Diagonals0();
    OneRound(v, m, 0, V0, W0, V1);
    Row1(m);
    Columns1();
    Diagonals1();
    OneRound(v, m, 1, V1, W1, V2);
    Row2(m);
    Columns2();
    Diagonals2();
    OneRound(v, m, 2, V2, W2, V3);
    Row3(m);
    Columns3();
    Diagonals3();
    OneRound(v, m, 3, V3, W3, V4);
  }

  lemma Rounds4To8(v: seq<Word>, m: seq<Word>)
    requires |v| == |m| == 16 && IsAbc(m) && Gathered(Rounds(v, m, 4)) == V4
    ensures Gathered(Rounds(v, m, 8)) == V8
  {
    hide *;
    Row4(m);
    Columns4();
    Diagonals4();
    OneRound(v, m, 4, V4, W4, V5);
    Row5(m);
    Columns5();
    Diagonals5();
    OneRound(v, m, 5, V5, W5, V6);
    Row6(m);
    Columns6();
    Diagonals6();
    OneRound(v, m, 6, V6, W6, V7);
    Row7(m);
    Columns7();
    Diagonals7();
    OneRound(v, m, 7, V7, W7, V8);
  }

  lemma Rounds8To12(v: seq<Word>, m: seq<Word>)
    requires |v| == |m| == 16 && IsAbc(m) && Gathered(Rounds(v, m, 8)) == V8
    ensures Gathered(Rounds(v, m, 12)) == V12
  {
    hide *;
    Row8(m);
    Columns8();
    Diagonals8();
    OneRound(v, m, 8, V8, W8, V9);
    Row9(m);
    Columns9();
    Diagonals9();
    OneRound(v, m, 9, V9, W9, V10);
    Row0(m);
    Columns10();
    Diagonals10();
    OneRound(v, m, 10, V10, W10, V11);
    Row1(m);
    Columns11();
    Diagonals11();
    OneRound(v, m, 11, V11, W11, V12);
  }

  lemma NoRoundYet(v: seq<Word>, m: seq<Word>)
    requires |v| == |m| == 16
    ensures Rounds(v, m, 0) == v
  {
  }

  lemma OneRound(v: seq<Word>, m: seq<Word>, n: nat, g: Grid, e: Grid, h: Grid)
    requires |v| == |m| == 16 && n < 12 && |SIGMA| == 10 && IsSchedule(SIGMA[n % 10])
    requires Gathered(Rounds(v, m, n)) == g && Mixed(g, Picked(m, SIGMA[n % 10], 0)) == e
    requires Mixed(Turned(e), Picked(m, SIGMA[n % 10], 8)) == Turned(h)
    ensures Gathered(Rounds(v, m, n + 1)) == h
  {
    hide Mixed, Gathered, Turned, Picked, Round;
    ScheduleRows(n);
    RoundFrom(Rounds(v, m, n), m, SIGMA[n % 10], e, h);
  }

  // ---- The digest ----

  const MESSAGE: seq<Byte> := [0x61, 0x62, 0x63]

  lemma MessageBlock()
    ensures IsAbc(WordsOf(Pad(MESSAGE)))
  {
    hide LoadLe, Pad;
    var block := Pad(MESSAGE);
    assert block[..3] == MESSAGE;
    forall i | 1 <= i < 16 ensures WordsOf(block)[i] == 0 {
      assert block[8 * i..8 * i + 8] == [0, 0, 0, 0, 0, 0, 0, 0];
      NothingLoaded();
    }
    assert block[0] == MESSAGE[0] && block[1] == MESSAGE[1] && block[2] == MESSAGE[2];
    assert block[0..8] == [0x61, 0x62, 0x63, 0, 0, 0, 0, 0];
    AbcLoaded();
  }

  lemma NothingLoaded()
    ensures LoadLe([0, 0, 0, 0, 0, 0, 0, 0]) == 0
  {
    hide LittleEndian, ToWord;
    ZerosRead([0, 0, 0, 0, 0, 0, 0, 0]);
    AbcWord();
  }

  lemma AbcLoaded()
    ensures LoadLe([0x61, 0x62, 0x63, 0, 0, 0, 0, 0]) == ABC
  {
    hide LittleEndian, ToWord;
    AbcRead();
    AbcWord();
  }

  lemma AbcWord()
    ensures ToWord(0x636261) == ABC && ToWord(0) == 0
  {
  }

  lemma AbcRead()
    ensures LittleEndian([0x61, 0x62, 0x63, 0, 0, 0, 0, 0]) == 0x636261
  {
    hide LittleEndian;
    FirstByte(0x61, [0x62, 0x63, 0, 0, 0, 0, 0]);
    FirstByte(0x62, [0x63, 0, 0, 0, 0, 0]);
    FirstByte(0x63, [0, 0, 0, 0, 0]);
    ZerosRead([0, 0, 0, 0, 0]);
    assert [0x61] + [0x62, 0x63, 0, 0, 0, 0, 0] == [0x61, 0x62, 0x63, 0, 0, 0, 0, 0];
    assert [0x62] + [0x63, 0, 0, 0, 0, 0] == [0x62, 0x63, 0, 0, 0, 0, 0];
    assert [0x63] + [0, 0, 0, 0, 0] == [0x63, 0, 0, 0, 0, 0];
  }

  lemma FirstByte(first: Byte, rest: seq<Byte>)
    ensures LittleEndian([first] + rest) == first + 0x100 * LittleEndian(rest)
  {
    assert ([first] + rest)[1..] == rest;
  }

  lemma {:induction false} ZerosRead(b: seq<Byte>)
    requires forall i :: 0 <= i < |b| ==> b[i] == 0
    ensures LittleEndian(b) == 0
  {
    if b != [] {
      ZerosRead(b[1..]);
    }
  }

  lemma StartVector()
    ensures Gathered(Setup(InitialChain(0, 64), IV, 3, true)) == V0
  {
  }

  const CHAIN: seq<Word> :=
    [0x0D4D1C983FA580BA, 0xE9F6129FB697276A, 0xB7C45A68142F214C, 0xD1A2FFDB6FBB124B,
     0x2D79AB2A39C5877D, 0x95CC3345DED552C2, 0x5A92F1DBA88AD318, 0x239900D4ED8623B9]

  lemma InitialIs()
    ensures InitialChain(0, 64) == IV[0 := 0x6A09E667F2BDC948]
  {
  }

  lemma FoldedChain(v: seq<Word>)
    requires |v| == 16 && Gathered(v) == V12
    ensures Folded(InitialChain(0, 64), v) == CHAIN
  {
    hide InitialChain, Xor;
    InitialIs();
    var h, r := InitialChain(0, 64), Folded(InitialChain(0, 64), v);
    FoldedWords();
    assert r[0] == CHAIN[0];
    assert r[1] == CHAIN[1];
    assert r[2] == CHAIN[2];
    assert r[3] == CHAIN[3];
    assert r[4] == CHAIN[4];
    assert r[5] == CHAIN[5];
    assert r[6] == CHAIN[6];
    assert r[7] == CHAIN[7];
  }

  lemma FoldedWords()
    ensures Xor(0x6A09E667F2BDC948, Xor(0x12EF8A641EC4F6D6, 0x75AB709BD3DCBF24)) == 0x0D4D1C983FA580BA
    ensures Xor(0xBB67AE8584CAA73B, Xor(0xBCED5DE977C9FAF5, 0xEE7CE1F345947AA4)) == 0xE9F6129FB697276A
    ensures Xor(0x3C6EF372FE94F82B, Xor(0x733CA476C5148639, 0xF8960D6C2FAF5F5E)) == 0xB7C45A68142F214C
    ensures Xor(0xA54FF53A5F1D36F1, Xor(0x97DF596B0610F6FC, 0xE332538A36B6D246)) == 0xD1A2FFDB6FBB124B
    ensures Xor(0x510E527FADE682D1, Xor(0xF42C16519AD5AFA7, 0x885BEF040EF6AA0B)) == 0x2D79AB2A39C5877D
    ensures Xor(0x9B05688C2B3E6C1F, Xor(0xAA5AC1888E10467E, 0xA4939A417BFB78A3)) == 0x95CC3345DED552C2
    ensures Xor(0x1F83D9ABFB41BD6B, Xor(0x217D930AA51787F3, 0x646CBB7AF6DCE980)) == 0x5A92F1DBA88AD318
    ensures Xor(0x5BE0CD19137E2179, Xor(0x906A6FF19E573942, 0xE813A23C60AF3B82)) == 0x239900D4ED8623B9
  {
  }

  lemma AbcChain()
    ensures F(InitialChain(0, 64), Pad(MESSAGE), 3, true) == CHAIN
  {
    hide Setup, WordsOf, Rounds, Folded, InitialChain, Pad, Gathered, V0, V4, V8, V12, CHAIN, IsAbc;
    var v, m := Setup(InitialChain(0, 64), IV, 3, true), WordsOf(Pad(MESSAGE));
    StartVector();
    MessageBlock();
    NoRoundYet(v, m);
    Rounds0To4(v, m);
    Rounds4To8(v, m);
    Rounds8To12(v, m);
    FoldedChain(Rounds(v, m, 12));
  }

  lemma Bytes0()
    ensures Stored(0x0D4D1C983FA580BA) == [0xBA, 0x80, 0xA5, 0x3F, 0x98, 0x1C, 0x4D, 0x0D]
  {
    assert 0x0D4D1C983FA580BA as Word as nat == 0x0D4D1C983FA580BA;
    assert ByteAt(0x0D4D1C983FA580BA, 0) == 0xBA && ByteAt(0x0D4D1C983FA580BA, 1) == 0x80 && ByteAt(0x0D4D1C983FA580BA, 2) == 0xA5 && ByteAt(0x0D4D1C983FA580BA, 3) == 0x3F;
    assert ByteAt(0x0D4D1C983FA580BA, 4) == 0x98 && ByteAt(0x0D4D1C983FA580BA, 5) == 0x1C && ByteAt(0x0D4D1C983FA580BA, 6) == 0x4D && ByteAt(0x0D4D1C983FA580BA, 7) == 0x0D;
  }

  lemma Bytes1()
    ensures Stored(0xE9F6129FB697276A) == [0x6A, 0x27, 0x97, 0xB6, 0x9F, 0x12, 0xF6, 0xE9]
  {
    assert 0xE9F6129FB697276A as Word as nat == 0xE9F6129FB697276A;
    assert ByteAt(0xE9F6129FB697276A, 0) == 0x6A && ByteAt(0xE9F6129FB697276A, 1) == 0x27 && ByteAt(0xE9F6129FB697276A, 2) == 0x97 && ByteAt(0xE9F6129FB697276A, 3) == 0xB6;
    assert ByteAt(0xE9F6129FB697276A, 4) == 0x9F && ByteAt(0xE9F6129FB697276A, 5) == 0x12 && ByteAt(0xE9F6129FB697276A, 6) == 0xF6 && ByteAt(0xE9F6129FB697276A, 7) == 0xE9;
  }

  lemma Bytes2()
    ensures Stored(0xB7C45A68142F214C) == [0x4C, 0x21, 0x2F, 0x14, 0x68, 0x5A, 0xC4, 0xB7]
  {
    assert 0xB7C45A68142F214C as Word as nat == 0xB7C45A68142F214C;
    assert ByteAt(0xB7C45A68142F214C, 0) == 0x4C && ByteAt(0xB7C45A68142F214C, 1) == 0x21 && ByteAt(0xB7C45A68142F214C, 2) == 0x2F && ByteAt(0xB7C45A68142F214C, 3) == 0x14;
    assert ByteAt(0xB7C45A68142F214C, 4) == 0x68 && ByteAt(0xB7C45A68142F214C, 5) == 0x5A && ByteAt(0xB7C45A68142F214C, 6) == 0xC4 && ByteAt(0xB7C45A68142F214C, 7) == 0xB7;
  }

  lemma Bytes3()
    ensures Stored(0xD1A2FFDB6FBB124B) == [0x4B, 0x12, 0xBB, 0x6F, 0xDB, 0xFF, 0xA2, 0xD1]
  {
    assert 0xD1A2FFDB6FBB124B as Word as nat == 0xD1A2FFDB6FBB124B;
    assert ByteAt(0xD1A2FFDB6FBB124B, 0) == 0x4B && ByteAt(0xD1A2FFDB6FBB124B, 1) == 0x12 && ByteAt(0xD1A2FFDB6FBB124B, 2) == 0xBB && ByteAt(0xD1A2FFDB6FBB124B, 3) == 0x6F;
    assert ByteAt(0xD1A2FFDB6FBB124B, 4) == 0xDB && ByteAt(0xD1A2FFDB6FBB124B, 5) == 0xFF && ByteAt(0xD1A2FFDB6FBB124B, 6) == 0xA2 && ByteAt(0xD1A2FFDB6FBB124B, 7) == 0xD1;
  }

  lemma Bytes4()
    ensures Stored(0x2D79AB2A39C5877D) == [0x7D, 0x87, 0xC5, 0x39, 0x2A, 0xAB, 0x79, 0x2D]
  {
    assert 0x2D79AB2A39C5877D as Word as nat == 0x2D79AB2A39C5877D;
    assert ByteAt(0x2D79AB2A39C5877D, 0) == 0x7D && ByteAt(0x2D79AB2A39C5877D, 1) == 0x87 && ByteAt(0x2D79AB2A39C5877D, 2) == 0xC5 && ByteAt(0x2D79AB2A39C5877D, 3) == 0x39;
    assert ByteAt(0x2D79AB2A39C5877D, 4) == 0x2A && ByteAt(0x2D79AB2A39C5877D, 5) == 0xAB && ByteAt(0x2D79AB2A39C5877D, 6) == 0x79 && ByteAt(0x2D79AB2A39C5877D, 7) == 0x2D;
  }

  lemma Bytes5()
    ensures Stored(0x95CC3345DED552C2) == [0xC2, 0x52, 0xD5, 0xDE, 0x45, 0x33, 0xCC, 0x95]
  {
    assert 0x95CC3345DED552C2 as Word as nat == 0x95CC3345DED552C2;
    assert ByteAt(0x95CC3345DED552C2, 0) == 0xC2 && ByteAt(0x95CC3345DED552C2, 1) == 0x52 && ByteAt(0x95CC3345DED552C2, 2) == 0xD5 && ByteAt(0x95CC3345DED552C2, 3) == 0xDE;
    assert ByteAt(0x95CC3345DED552C2, 4) == 0x45 && ByteAt(0x95CC3345DED552C2, 5) == 0x33 && ByteAt(0x95CC3345DED552C2, 6) == 0xCC && ByteAt(0x95CC3345DED552C2, 7) == 0x95;
  }

  lemma Bytes6()
    ensures Stored(0x5A92F1DBA88AD318) == [0x18, 0xD3, 0x8A, 0xA8, 0xDB, 0xF1, 0x92, 0x5A]
  {
    assert 0x5A92F1DBA88AD318 as Word as nat == 0x5A92F1DBA88AD318;
    assert ByteAt(0x5A92F1DBA88AD318, 0) == 0x18 && ByteAt(0x5A92F1DBA88AD318, 1) == 0xD3 && ByteAt(0x5A92F1DBA88AD318, 2) == 0x8A && ByteAt(0x5A92F1DBA88AD318, 3) == 0xA8;
    assert ByteAt(0x5A92F1DBA88AD318, 4) == 0xDB && ByteAt(0x5A92F1DBA88AD318, 5) == 0xF1 && ByteAt(0x5A92F1DBA88AD318, 6) == 0x92 && ByteAt(0x5A92F1DBA88AD318, 7) == 0x5A;
  }

  lemma Bytes7()
    ensures Stored(0x239900D4ED8623B9) == [0xB9, 0x23, 0x86, 0xED, 0xD4, 0x00, 0x99, 0x23]
  {
    assert 0x239900D4ED8623B9 as Word as nat == 0x239900D4ED8623B9;
    assert ByteAt(0x239900D4ED8623B9, 0) == 0xB9 && ByteAt(0x239900D4ED8623B9, 1) == 0x23 && ByteAt(0x239900D4ED8623B9, 2) == 0x86 && ByteAt(0x239900D4ED8623B9, 3) == 0xED;
    assert ByteAt(0x239900D4ED8623B9, 4) == 0xD4 && ByteAt(0x239900D4ED8623B9, 5) == 0x00 && ByteAt(0x239900D4ED8623B9, 6) == 0x99 && ByteAt(0x239900D4ED8623B9, 7) == 0x23;
  }

  // The bytes of a word.
  function Stored(w: Word): (b: seq<Byte>)
    ensures |b| == 8
  {
    [WordByte(w, 0), WordByte(w, 1), WordByte(w, 2), WordByte(w, 3),
     WordByte(w, 4), WordByte(w, 5), WordByte(w, 6), WordByte(w, 7)]
  }

  lemma StoredWord(h: seq<Word>, k: nat)
    requires |h| == 8 && k < 8
    ensures FirstBytes(h, 64)[8 * k..8 * k + 8] == Stored(h[k])
  {
    hide WordByte;
    var out := FirstBytes(h, 64);
    forall j | 0 <= j < 8 ensures out[8 * k..8 * k + 8][j] == Stored(h[k])[j] {
      InWord(k, j);
      assert out[8 * k + j] == WordByte(h[k], j);
    }
  }

  lemma InWord(k: nat, j: nat)
    requires j < 8
    ensures (8 * k + j) / 8 == k && (8 * k + j) % 8 == j
  {
  }

  lemma AbcDigestIs()
    ensures Digest([], MESSAGE, 64) == FirstBytes(CHAIN, 64)
  {
    hide F, InitialChain, Pad, FirstBytes, CHAIN;
    assert PadBlocks(MESSAGE) == [Pad(MESSAGE)];
    AbcChain();
  }

  /** The digest of "abc" in 64 bytes, without a key, is the one of Appendix A. */
  lemma AbcDigest()
    ensures var d := Digest([], MESSAGE, 64);
            && d[0..8] == [0xBA, 0x80, 0xA5, 0x3F, 0x98, 0x1C, 0x4D, 0x0D]
            && d[8..16] == [0x6A, 0x27, 0x97, 0xB6, 0x9F, 0x12, 0xF6, 0xE9]
            && d[16..24] == [0x4C, 0x21, 0x2F, 0x14, 0x68, 0x5A, 0xC4, 0xB7]
            && d[24..32] == [0x4B, 0x12, 0xBB, 0x6F, 0xDB, 0xFF, 0xA2, 0xD1]
            && d[32..40] == [0x7D, 0x87, 0xC5, 0x39, 0x2A, 0xAB, 0x79, 0x2D]
            && d[40..48] == [0xC2, 0x52, 0xD5, 0xDE, 0x45, 0x33, 0xCC, 0x95]
            && d[48..56] == [0x18, 0xD3, 0x8A, 0xA8, 0xDB, 0xF1, 0x92, 0x5A]
            && d[56..64] == [0xB9, 0x23, 0x86, 0xED, 0xD4, 0x00, 0x99, 0x23]
  {
    hide Digest, FirstBytes, Stored, CHAIN;
    AbcDigestIs();
    ChainWords();
    StoredWord(CHAIN, 0);
    Bytes0();
    StoredWord(CHAIN, 1);
    Bytes1();
    StoredWord(CHAIN, 2);
    Bytes2();
    StoredWord(CHAIN, 3);
    Bytes3();
    StoredWord(CHAIN, 4);
    Bytes4();
    StoredWord(CHAIN, 5);
    Bytes5();
    StoredWord(CHAIN, 6);
    Bytes6();
    StoredWord(CHAIN, 7);
    Bytes7();
  }

  lemma ChainWords()
    ensures |CHAIN| == 8
    ensures CHAIN[0] == 0x0D4D1C983FA580BA && CHAIN[1] == 0xE9F6129FB697276A
    ensures CHAIN[2] == 0xB7C45A68142F214C && CHAIN[3] == 0xD1A2FFDB6FBB124B
    ensures CHAIN[4] == 0x2D79AB2A39C5877D && CHAIN[5] == 0x95CC3345DED552C2
    ensures CHAIN[6] == 0x5A92F1DBA88AD318 && CHAIN[7] == 0x239900D4ED8623B9
  {
  }
}
