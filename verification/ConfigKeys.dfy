/** The keys that `readconf` asks for: none of them ends in another one, so that the results on
    looking keys up hold for every configuration file made of them. */
module ConfigKeys {
  import opened Strings
  import opened Configs

  // The keys, in the order of their reversed texts

  const KEYS0 := ["traffic_bnc", "user_access_denied", "site_closed", "uid", "no_idnt_cmd", "reloadcmd",
                  "sslexcludecmd"]

  const KEYS1 := ["fromsitecmd", "tositecmd", "killcmd", "fpwlcmd", "admincmd", "infocmd", "fxpipcmd"]

  const KEYS2 := ["helpcmd", "entrycmd", "active_bind_range_end", "port_range_end", "use_active_bind", "ssl_forward",
                  "listen_interface"]

  const KEYS3 := ["use_ssl_exclude", "use_port_range", "ssl_ascii_cache", "fpwhitelist_file", "iplist_file",
                  "pidfile", "command_logfile"]

  const KEYS4 := ["debug_logfile", "speed_write", "buffersize", "pending", "server_string", "fake_serverstring",
                  "syslog"]

  const KEYS5 := ["fp_new_ip_msg", "show_connect_failmsg", "connectfailmsg", "debug", "use_fxpiphash", "cert_path",
                  "fp_msg_nick"]

  const KEYS6 := ["traffic_bnc_relink", "ssl_relink", "trytorelink", "site_full", "log_to_screen",
                  "send_traffic_info", "hash_algo"]

  const KEYS7 := ["site_ip", "relink_ip", "listen_ip", "forwarder_ip", "connect_ip", "nat_pasv_ip", "disable_noop"]

  const KEYS8 := ["enforce_tls_fxp", "translate_nosslfxp", "use_forwarder", "data_cipher", "control_cipher",
                  "relink_user", "usecommands"]

  const KEYS9 := ["enforce_tls", "relink_notls", "max_numlogins", "relink_pass", "user_login_success",
                  "allow_noentry_connect", "month_limit"]

  const KEYS10 := ["week_limit", "day_limit", "enforce_ident", "use_ident", "retry_count", "active_bind_range_start",
                   "port_range_start"]

  const KEYS11 := ["crypted_cert", "site_port", "add_to_passive_port", "relink_port", "listen_port",
                   "forwarder_dport", "forwarder_sport"]

  const KEYS12 := ["sslexclude_list", "fxp_fromsite_list", "use_fxpfromsite_list", "fxp_tosite_list",
                   "use_fxptosite_list", "admin_list", "entry_list"]

  const KEYS13 := ["crypted_fpwhitelist", "crypted_iplist", "use_fxpiplist", "read_write_timeout", "connect_timeout",
                   "ident_timeout", "cmd_prefix"]

  const FORMER: seq<string> := KEYS0 + (KEYS1 + (KEYS2 + (KEYS3 + (KEYS4 + (KEYS5 + KEYS6)))))

  const LATTER: seq<string> := KEYS7 + (KEYS8 + (KEYS9 + (KEYS10 + (KEYS11 + (KEYS12 + KEYS13)))))

  const KEYS: seq<string> := FORMER + LATTER

  // One key after the other

  function FromEnd(s: string, k: nat): char
    requires k < |s|
  {
    s[|s| - 1 - k]
  }

  /** The last `d` characters agree, and the one before them is less in `a`. */
  predicate EndsBefore(a: string, b: string, d: nat) {
    d < |a| && d < |b| && FromEnd(a, d) < FromEnd(b, d) && forall k | 0 <= k < d :: FromEnd(a, k) == FromEnd(b, k)
  }

  ghost predicate Before(a: string, b: string) {
    exists d: nat :: EndsBefore(a, b, d)
  }

  lemma BeforeTransitive(a: string, b: string, c: string)
    requires Before(a, b) && Before(b, c)
    ensures Before(a, c)
  {
    var d: nat :| EndsBefore(a, b, d);
    var e: nat :| EndsBefore(b, c, e);
    var k := if d < e then d else e;
    assert EndsBefore(a, c, k);
  }

  lemma SuffixEnds(a: string, b: string, d: nat)
    requires IsSuffix(a, b) && d < |a|
    ensures FromEnd(a, d) == FromEnd(b, d)
  {
    assert b[|b| - |a|..][|a| - 1 - d] == b[|b| - 1 - d];
  }

  lemma BeforeNoSuffix(a: string, b: string)
    requires Before(a, b)
    ensures !IsSuffix(a, b) && !IsSuffix(b, a)
  {
    var d: nat :| EndsBefore(a, b, d);
    if IsSuffix(a, b) {
      SuffixEnds(a, b, d);
    }
    if IsSuffix(b, a) {
      SuffixEnds(b, a, d);
    }
  }

  ghost predicate Rising(ks: seq<string>) {
    forall i | 0 <= i < |ks| - 1 :: Before(ks[i], ks[i + 1])
  }

  predicate Word(s: string) {
    s != "" && forall i | 0 <= i < |s| :: 'a' <= s[i] <= 'z' || s[i] == '_'
  }

  ghost predicate Words(ks: seq<string>) {
    forall i | 0 <= i < |ks| :: Word(ks[i])
  }

  lemma RisingBoth(a: seq<string>, b: seq<string>)
    requires a != [] && b != [] && Rising(a) && Rising(b) && Before(a[|a| - 1], b[0])
    ensures Rising(a + b)
  {
  }

  lemma {:induction false} RisingFar(ks: seq<string>, i: nat, j: nat)
    requires Rising(ks) && i < j < |ks|
    ensures Before(ks[i], ks[j])
  {
    if i + 1 < j {
      RisingFar(ks, i, j - 1);
      BeforeTransitive(ks[i], ks[j - 1], ks[j]);
    }
  }

  lemma Rising0()
    ensures Rising(KEYS0)
  {
    assert EndsBefore("traffic_bnc", "user_access_denied", 0);
    assert EndsBefore("user_access_denied", "site_closed", 2);
    assert EndsBefore("site_closed", "uid", 1);
    assert EndsBefore("uid", "no_idnt_cmd", 1);
    assert EndsBefore("no_idnt_cmd", "reloadcmd", 3);
    assert EndsBefore("reloadcmd", "sslexcludecmd", 3);
  }

  lemma Words0()
    ensures Words(KEYS0)
  {
    assert Word("traffic_bnc");
    assert Word("user_access_denied");
    assert Word("site_closed");
    assert Word("uid");
    assert Word("no_idnt_cmd");
    assert Word("reloadcmd");
    assert Word("sslexcludecmd");
  }

  lemma Rising1()
    ensures Rising(KEYS1)
  {
    assert EndsBefore("fromsitecmd", "tositecmd", 7);
    assert EndsBefore("tositecmd", "killcmd", 3);
    assert EndsBefore("killcmd", "fpwlcmd", 4);
    assert EndsBefore("fpwlcmd", "admincmd", 3);
    assert EndsBefore("admincmd", "infocmd", 3);
    assert EndsBefore("infocmd", "fxpipcmd", 3);
  }

  lemma Words1()
    ensures Words(KEYS1)
  {
    assert Word("fromsitecmd");
    assert Word("tositecmd");
    assert Word("killcmd");
    assert Word("fpwlcmd");
    assert Word("admincmd");
    assert Word("infocmd");
    assert Word("fxpipcmd");
  }

  lemma Rising2()
    ensures Rising(KEYS2)
  {
    assert EndsBefore("helpcmd", "entrycmd", 3);
    assert EndsBefore("entrycmd", "active_bind_range_end", 1);
    assert EndsBefore("active_bind_range_end", "port_range_end", 10);
    assert EndsBefore("port_range_end", "use_active_bind", 2);
    assert EndsBefore("use_active_bind", "ssl_forward", 1);
    assert EndsBefore("ssl_forward", "listen_interface", 0);
  }

  lemma Words2()
    ensures Words(KEYS2)
  {
    assert Word("helpcmd");
    assert Word("entrycmd");
    assert Word("active_bind_range_end");
    assert Word("port_range_end");
    assert Word("use_active_bind");
    assert Word("ssl_forward");
    assert Word("listen_interface");
  }

  lemma Rising3()
    ensures Rising(KEYS3)
  {
    assert EndsBefore("use_ssl_exclude", "use_port_range", 1);
    assert EndsBefore("use_port_range", "ssl_ascii_cache", 1);
    assert EndsBefore("ssl_ascii_cache", "fpwhitelist_file", 1);
    assert EndsBefore("fpwhitelist_file", "iplist_file", 9);
    assert EndsBefore("iplist_file", "pidfile", 4);
    assert EndsBefore("pidfile", "command_logfile", 4);
  }

  lemma Words3()
    ensures Words(KEYS3)
  {
    assert Word("use_ssl_exclude");
    assert Word("use_port_range");
    assert Word("ssl_ascii_cache");
    assert Word("fpwhitelist_file");
    assert Word("iplist_file");
    assert Word("pidfile");
    assert Word("command_logfile");
  }

  lemma Rising4()
    ensures Rising(KEYS4)
  {
    assert EndsBefore("debug_logfile", "speed_write", 1);
    assert EndsBefore("speed_write", "buffersize", 1);
    assert EndsBefore("buffersize", "pending", 0);
    assert EndsBefore("pending", "server_string", 3);
    assert EndsBefore("server_string", "fake_serverstring", 6);
    assert EndsBefore("fake_serverstring", "syslog", 1);
  }

  lemma Words4()
    ensures Words(KEYS4)
  {
    assert Word("debug_logfile");
    assert Word("speed_write");
    assert Word("buffersize");
    assert Word("pending");
    assert Word("server_string");
    assert Word("fake_serverstring");
    assert Word("syslog");
  }

  lemma Rising5()
    ensures Rising(KEYS5)
  {
    assert EndsBefore("fp_new_ip_msg", "show_connect_failmsg", 3);
    assert EndsBefore("show_connect_failmsg", "connectfailmsg", 7);
    assert EndsBefore("connectfailmsg", "debug", 1);
    assert EndsBefore("debug", "use_fxpiphash", 0);
    assert EndsBefore("use_fxpiphash", "cert_path", 1);
    assert EndsBefore("cert_path", "fp_msg_nick", 0);
  }

  lemma Words5()
    ensures Words(KEYS5)
  {
    assert Word("fp_new_ip_msg");
    assert Word("show_connect_failmsg");
    assert Word("connectfailmsg");
    assert Word("debug");
    assert Word("use_fxpiphash");
    assert Word("cert_path");
    assert Word("fp_msg_nick");
  }

  lemma Rising6()
    ensures Rising(KEYS6)
  {
    assert EndsBefore("traffic_bnc_relink", "ssl_relink", 7);
    assert EndsBefore("ssl_relink", "trytorelink", 6);
    assert EndsBefore("trytorelink", "site_full", 0);
    assert EndsBefore("site_full", "log_to_screen", 0);
    assert EndsBefore("log_to_screen", "send_traffic_info", 0);
    assert EndsBefore("send_traffic_info", "hash_algo", 1);
  }

  lemma Words6()
    ensures Words(KEYS6)
  {
    assert Word("traffic_bnc_relink");
    assert Word("ssl_relink");
    assert Word("trytorelink");
    assert Word("site_full");
    assert Word("log_to_screen");
    assert Word("send_traffic_info");
    assert Word("hash_algo");
  }

  lemma Rising7()
    ensures Rising(KEYS7)
  {
    assert EndsBefore("site_ip", "relink_ip", 3);
    assert EndsBefore("relink_ip", "listen_ip", 3);
    assert EndsBefore("listen_ip", "forwarder_ip", 3);
    assert EndsBefore("forwarder_ip", "connect_ip", 3);
    assert EndsBefore("connect_ip", "nat_pasv_ip", 3);
    assert EndsBefore("nat_pasv_ip", "disable_noop", 1);
  }

  lemma Words7()
    ensures Words(KEYS7)
  {
    assert Word("site_ip");
    assert Word("relink_ip");
    assert Word("listen_ip");
    assert Word("forwarder_ip");
    assert Word("connect_ip");
    assert Word("nat_pasv_ip");
    assert Word("disable_noop");
  }

  lemma Rising8()
    ensures Rising(KEYS8)
  {
    assert EndsBefore("enforce_tls_fxp", "translate_nosslfxp", 3);
    assert EndsBefore("translate_nosslfxp", "use_forwarder", 0);
    assert EndsBefore("use_forwarder", "data_cipher", 2);
    assert EndsBefore("data_cipher", "control_cipher", 7);
    assert EndsBefore("control_cipher", "relink_user", 2);
    assert EndsBefore("relink_user", "usecommands", 0);
  }

  lemma Words8()
    ensures Words(KEYS8)
  {
    assert Word("enforce_tls_fxp");
    assert Word("translate_nosslfxp");
    assert Word("use_forwarder");
    assert Word("data_cipher");
    assert Word("control_cipher");
    assert Word("relink_user");
    assert Word("usecommands");
  }

  lemma Rising9()
    ensures Rising(KEYS9)
  {
    assert EndsBefore("enforce_tls", "relink_notls", 3);
    assert EndsBefore("relink_notls", "max_numlogins", 1);
    assert EndsBefore("max_numlogins", "relink_pass", 1);
    assert EndsBefore("relink_pass", "user_login_success", 2);
    assert EndsBefore("user_login_success", "allow_noentry_connect", 0);
    assert EndsBefore("allow_noentry_connect", "month_limit", 1);
  }

  lemma Words9()
    ensures Words(KEYS9)
  {
    assert Word("enforce_tls");
    assert Word("relink_notls");
    assert Word("max_numlogins");
    assert Word("relink_pass");
    assert Word("user_login_success");
    assert Word("allow_noentry_connect");
    assert Word("month_limit");
  }

  lemma Rising10()
    ensures Rising(KEYS10)
  {
    assert EndsBefore("week_limit", "day_limit", 6);
    assert EndsBefore("day_limit", "enforce_ident", 1);
    assert EndsBefore("enforce_ident", "use_ident", 7);
    assert EndsBefore("use_ident", "retry_count", 2);
    assert EndsBefore("retry_count", "active_bind_range_start", 1);
    assert EndsBefore("active_bind_range_start", "port_range_start", 12);
  }

  lemma Words10()
    ensures Words(KEYS10)
  {
    assert Word("week_limit");
    assert Word("day_limit");
    assert Word("enforce_ident");
    assert Word("use_ident");
    assert Word("retry_count");
    assert Word("active_bind_range_start");
    assert Word("port_range_start");
  }

  lemma Rising11()
    ensures Rising(KEYS11)
  {
    assert EndsBefore("crypted_cert", "site_port", 2);
    assert EndsBefore("site_port", "add_to_passive_port", 6);
    assert EndsBefore("add_to_passive_port", "relink_port", 5);
    assert EndsBefore("relink_port", "listen_port", 5);
    assert EndsBefore("listen_port", "forwarder_dport", 4);
    assert EndsBefore("forwarder_dport", "forwarder_sport", 4);
  }

  lemma Words11()
    ensures Words(KEYS11)
  {
    assert Word("crypted_cert");
    assert Word("site_port");
    assert Word("add_to_passive_port");
    assert Word("relink_port");
    assert Word("listen_port");
    assert Word("forwarder_dport");
    assert Word("forwarder_sport");
  }

  lemma Rising12()
    ensures Rising(KEYS12)
  {
    assert EndsBefore("sslexclude_list", "fxp_fromsite_list", 6);
    assert EndsBefore("fxp_fromsite_list", "use_fxpfromsite_list", 13);
    assert EndsBefore("use_fxpfromsite_list", "fxp_tosite_list", 9);
    assert EndsBefore("fxp_tosite_list", "use_fxptosite_list", 11);
    assert EndsBefore("use_fxptosite_list", "admin_list", 5);
    assert EndsBefore("admin_list", "entry_list", 5);
  }

  lemma Words12()
    ensures Words(KEYS12)
  {
    assert Word("sslexclude_list");
    assert Word("fxp_fromsite_list");
    assert Word("use_fxpfromsite_list");
    assert Word("fxp_tosite_list");
    assert Word("use_fxptosite_list");
    assert Word("admin_list");
    assert Word("entry_list");
  }

  lemma Rising13()
    ensures Rising(KEYS13)
  {
    assert EndsBefore("crypted_fpwhitelist", "crypted_iplist", 4);
    assert EndsBefore("crypted_iplist", "use_fxpiplist", 6);
    assert EndsBefore("use_fxpiplist", "read_write_timeout", 1);
    assert EndsBefore("read_write_timeout", "connect_timeout", 8);
    assert EndsBefore("connect_timeout", "ident_timeout", 9);
    assert EndsBefore("ident_timeout", "cmd_prefix", 0);
  }

  lemma Words13()
    ensures Words(KEYS13)
  {
    assert Word("crypted_fpwhitelist");
    assert Word("crypted_iplist");
    assert Word("use_fxpiplist");
    assert Word("read_write_timeout");
    assert Word("connect_timeout");
    assert Word("ident_timeout");
    assert Word("cmd_prefix");
  }

  lemma FormerRise()
    ensures Rising(FORMER)
  {
    Rising0();
    Rising1();
    Rising2();
    Rising3();
    Rising4();
    Rising5();
    Rising6();
    assert EndsBefore("sslexcludecmd", "fromsitecmd", 4);
    assert EndsBefore("fxpipcmd", "helpcmd", 4);
    assert EndsBefore("listen_interface", "use_ssl_exclude", 1);
    assert EndsBefore("command_logfile", "debug_logfile", 8);
    assert EndsBefore("syslog", "fp_new_ip_msg", 1);
    assert EndsBefore("fp_msg_nick", "traffic_bnc_relink", 1);
    var ks := KEYS6;
    RisingBoth(KEYS5, ks);
    ks := KEYS5 + ks;
    RisingBoth(KEYS4, ks);
    ks := KEYS4 + ks;
    RisingBoth(KEYS3, ks);
    ks := KEYS3 + ks;
    RisingBoth(KEYS2, ks);
    ks := KEYS2 + ks;
    RisingBoth(KEYS1, ks);
    ks := KEYS1 + ks;
    RisingBoth(KEYS0, ks);
    ks := KEYS0 + ks;
  }

  lemma LatterRise()
    ensures Rising(LATTER)
  {
    Rising7();
    Rising8();
    Rising9();
    Rising10();
    Rising11();
    Rising12();
    Rising13();
    assert EndsBefore("disable_noop", "enforce_tls_fxp", 1);
    assert EndsBefore("usecommands", "enforce_tls", 1);
    assert EndsBefore("month_limit", "week_limit", 6);
    assert EndsBefore("port_range_start", "crypted_cert", 2);
    assert EndsBefore("forwarder_sport", "sslexclude_list", 1);
    assert EndsBefore("entry_list", "crypted_fpwhitelist", 4);
    var ks := KEYS13;
    RisingBoth(KEYS12, ks);
    ks := KEYS12 + ks;
    RisingBoth(KEYS11, ks);
    ks := KEYS11 + ks;
    RisingBoth(KEYS10, ks);
    ks := KEYS10 + ks;
    RisingBoth(KEYS9, ks);
    ks := KEYS9 + ks;
    RisingBoth(KEYS8, ks);
    ks := KEYS8 + ks;
    RisingBoth(KEYS7, ks);
    ks := KEYS7 + ks;
  }

  lemma KeysRise()
    ensures Rising(KEYS)
  {
    FormerRise();
    LatterRise();
    assert EndsBefore("hash_algo", "site_ip", 0);
    RisingBoth(FORMER, LATTER);
  }

  lemma KeysAreWords()
    ensures Words(KEYS)
  {
    Words0();
    Words1();
    Words2();
    Words3();
    Words4();
    Words5();
    Words6();
    Words7();
    Words8();
    Words9();
    Words10();
    Words11();
    Words12();
    Words13();
  }

  lemma RisingSuffixFree(ks: seq<string>, a: string, b: string)
    requires Rising(ks) && a in ks && b in ks && IsSuffix(a, b)
    ensures a == b
  {
    var i, j :| 0 <= i < |ks| && 0 <= j < |ks| && ks[i] == a && ks[j] == b;
    if i < j {
      RisingFar(ks, i, j);
      BeforeNoSuffix(a, b);
    } else if j < i {
      RisingFar(ks, j, i);
      BeforeNoSuffix(b, a);
    }
  }

  /** No key ends in another. */
  lemma KeysAreSuffixFree()
    ensures forall a, b | a in KEYS && b in KEYS && IsSuffix(a, b) :: a == b
  {
    KeysRise();
    forall a, b | a in KEYS && b in KEYS && IsSuffix(a, b) ensures a == b {
      RisingSuffixFree(KEYS, a, b);
    }
  }

  /** The values and the other texts of a file hold none of the keys with an equals sign. */
  ghost predicate PlainFor(ks: seq<string>, item: Item) {
    match item
    case Other(text) => forall k | k in ks :: !Contains(text, k + "=")
    case _ => item.key in ks && ';' !in item.value && forall k | k in ks :: !Contains(item.value, k + "=")
  }

  ghost predicate Plain(item: Item) {
    PlainFor(KEYS, item)
  }

  /** So with a file of lines for these keys, in any order, `readconf` gets for each key what the file says. */
  lemma KeysAreLookedUp(items: seq<Item>, default: Value)
    ensures (forall item | item in items :: Plain(item)) ==>
      forall name | name in KEYS ::
        && Getkey(name, Render(items)) == Meaning(name, items)
        && Entry(default, name, Render(items)) == if Meaning(name, items) == ERROR then default else default.From(Meaning(name, items))
  {
    if forall item | item in items :: Plain(item) {
      KeysAreWords();
      KeysAreSuffixFree();
      forall name | name in KEYS
        ensures Getkey(name, Render(items)) == Meaning(name, items)
        ensures Entry(default, name, Render(items)) == if Meaning(name, items) == ERROR then default else default.From(Meaning(name, items))
      {
        FairForKey(KEYS, name, items);
        LookupIsMeaning(name, items);
        ConfigRoundTrip(name, items, default);
      }
    }
  }

  lemma FairForKey(ks: seq<string>, name: string, items: seq<Item>)
    requires Words(ks) && name in ks && forall item | item in items :: PlainFor(ks, item)
    requires forall a, b | a in ks && b in ks && IsSuffix(a, b) :: a == b
    ensures Name(name) && forall item | item in items :: Fair(name, item)
  {
    forall item | item in items ensures Fair(name, item) {
      assert PlainFor(ks, item);
    }
  }
}
